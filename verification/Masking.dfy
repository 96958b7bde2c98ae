/** WebSocket masking (WASM/assembly/ws/index.ts:54-82, 143-158), eight bytes at a time: proved to
    be the octet-by-octet masking of section 5.3 of RFC 6455. Words are little-endian numbers,
    and XOR is defined on their binary digits. */
module Masking {
  import opened Base

  // ── XOR ────────────────────────────────────────────────────────────────────────────

  function Xor(a: nat, b: nat): nat {
    if a == 0 && b == 0 then 0 else (a + b) % 2 + 2 * Xor(a / 2, b / 2)
  }

  function Two(k: nat): (p: nat)
    ensures p > 0
  {
    if k == 0 then 1 else 2 * Two(k - 1)
  }

  lemma {:induction false} XorBound(a: nat, b: nat, k: nat)
    requires a < Two(k) && b < Two(k)
    ensures Xor(a, b) < Two(k)
  {
    if k > 0 && !(a == 0 && b == 0) { XorBound(a / 2, b / 2, k - 1); }
  }

  lemma XorStep(x: nat, p: nat, y: nat, q: nat)
    ensures Xor(x + 2 * p, y + 2 * q) == (x + y) % 2 + 2 * Xor(x / 2 + p, y / 2 + q)
  {
    assert (x + 2 * p) / 2 == x / 2 + p && (y + 2 * q) / 2 == y / 2 + q;
    assert (x + 2 * p + (y + 2 * q)) % 2 == (x + y) % 2;
  }

  lemma {:induction false} XorUndoes(a: nat, b: nat)
    ensures Xor(Xor(a, b), b) == a
    decreases a + b
  {
    hide Xor;
    if a == 0 && b == 0 {
      TwoDoubles(0);
    } else {
      var low, high := (a + b) % 2, Xor(a / 2, b / 2);
      XorStep(a % 2, a / 2, b % 2, b / 2);
      XorStep(low, high, b % 2, b / 2);
      XorUndoes(a / 2, b / 2);
      assert a == a % 2 + 2 * (a / 2) && b == b % 2 + 2 * (b / 2);
      assert (a % 2 + b % 2) % 2 == low;
      assert (low + b % 2) % 2 == a % 2;
    }
  }

  /** XOR works on the low and the high digits apart. */
  lemma {:induction false} XorSplit(k: nat, x: nat, a: nat, y: nat, b: nat)
    requires x < Two(k) && y < Two(k)
    ensures Xor(x + Two(k) * a, y + Two(k) * b) == Xor(x, y) + Two(k) * Xor(a, b)
  {
    hide Xor, Two;
    XorStep(0, 0, 0, 0);
    TwoDoubles(k);
    if k > 0 {
      var t := Two(k - 1);
      XorSplit(k - 1, x / 2, a, y / 2, b);
      XorStep(x, t * a, y, t * b);
      XorStep(x, 0, y, 0);
      Double(Two(k), t, a);
      Double(Two(k), t, b);
      Double(Two(k), t, Xor(a, b));
    }
  }

  lemma TwoDoubles(k: nat)
    ensures Xor(0, 0) == 0 && if k == 0 then Two(k) == 1 else Two(k) == 2 * Two(k - 1)
  {
  }

  lemma Double(w: nat, t: nat, a: nat)
    requires w == 2 * t
    ensures w * a == 2 * (t * a)
  {
  }

  function XorByte(a: byte, b: byte): byte {
    assert Two(8) == 256;
    XorBound(a as nat, b as nat, 8);
    Xor(a as nat, b as nat) as byte
  }

  lemma XorByteUndoes(a: byte, b: byte)
    ensures XorByte(XorByte(a, b), b) == a
  {
    XorUndoes(a as nat, b as nat);
  }

  // ── words ──────────────────────────────────────────────────────────────────────────

  /** Bytes as a little-endian number. */
  function Word(bytes: seq<byte>): nat {
    if bytes == [] then 0 else bytes[0] as nat + 256 * Word(bytes[1..])
  }

  function Octets(w: nat, n: nat): (bytes: seq<byte>)
    ensures |bytes| == n
  {
    if n == 0 then [] else [(w % 256) as byte] + Octets(w / 256, n - 1)
  }

  function XorEach(a: seq<byte>, b: seq<byte>): (r: seq<byte>)
    requires |a| == |b|
    ensures |r| == |a|
  {
    seq(|a|, i requires 0 <= i < |a| => XorByte(a[i], b[i]))
  }

  lemma {:induction false} WordOctets(bytes: seq<byte>)
    ensures Octets(Word(bytes), |bytes|) == bytes
  {
    if bytes != [] {
      WordOctets(bytes[1..]);
      LowOctet(bytes[0], Word(bytes[1..]));
      assert bytes == [bytes[0]] + bytes[1..];
    }
  }

  lemma LowOctet(b: byte, w: nat)
    ensures (b as nat + 256 * w) % 256 == b as nat && (b as nat + 256 * w) / 256 == w
  {
  }

  lemma {:induction false} XorWords(a: seq<byte>, b: seq<byte>)
    requires |a| == |b|
    ensures Xor(Word(a), Word(b)) == Word(XorEach(a, b))
  {
    if a != [] {
      XorWords(a[1..], b[1..]);
      assert Two(8) == 256;
      XorSplit(8, a[0] as nat, Word(a[1..]), b[0] as nat, Word(b[1..]));
      assert XorEach(a, b)[1..] == XorEach(a[1..], b[1..]);
    }
  }

  // ── masking ────────────────────────────────────────────────────────────────────────

  /** Byte i under key octet i mod 4. */
  function Mask(bytes: seq<byte>, key: seq<byte>): (r: seq<byte>)
    requires |key| == 4
    ensures |r| == |bytes|
  {
    seq(|bytes|, i requires 0 <= i < |bytes| => XorByte(bytes[i], key[i % 4]))
  }

  lemma MaskUndoes(bytes: seq<byte>, key: seq<byte>)
    requires |key| == 4
    ensures Mask(Mask(bytes, key), key) == bytes
  {
    forall i | 0 <= i < |bytes| ensures XorByte(XorByte(bytes[i], key[i % 4]), key[i % 4]) == bytes[i] {
      XorByteUndoes(bytes[i], key[i % 4]);
    }
  }

  lemma SkipFours(d: nat, i: nat)
    requires d % 4 == 0
    ensures (d + i) % 4 == i % 4
  {
    assert d == 4 * (d / 4);
  }

  /** A run that starts at a multiple of four is masked on its own. */
  lemma MaskRunOn(done: seq<byte>, next: seq<byte>, key: seq<byte>)
    requires |key| == 4 && |done| % 4 == 0
    ensures Mask(done + next, key) == Mask(done, key) + Mask(next, key)
  {
    hide XorByte;
    var whole := Mask(done + next, key);
    assert whole[..|done|] == Mask(done, key);
    forall i | 0 <= i < |next| ensures whole[|done| + i] == Mask(next, key)[i] {
      SkipFours(|done|, i);
    }
    assert whole[|done|..] == Mask(next, key);
    assert whole == whole[..|done|] + whole[|done|..];
  }

  lemma MaskFour(bytes: seq<byte>, key: seq<byte>)
    requires |key| == 4 && |bytes| == 4
    ensures Mask(bytes, key) == XorEach(bytes, key)
  {
    hide XorByte;
    forall i | 0 <= i < 4 ensures Mask(bytes, key)[i] == XorEach(bytes, key)[i] {
      KeyOctet(i);
    }
  }

  lemma KeyOctet(i: nat)
    requires i < 8
    ensures i % 4 == if i < 4 then i else i - 4
  {
  }

  lemma MaskEight(bytes: seq<byte>, key: seq<byte>)
    requires |key| == 4 && |bytes| == 8
    ensures Mask(bytes, key) == XorEach(bytes, key + key)
  {
    hide XorByte;
    forall i | 0 <= i < 8 ensures Mask(bytes, key)[i] == XorEach(bytes, key + key)[i] {
      KeyOctet(i);
      assert (key + key)[i] == key[if i < 4 then i else i - 4];
    }
  }

  /** Load a word, XOR it and store it back. */
  method XorWordAt(mem: array<byte>, at: nat, word: nat, n: nat, ghost bytes: seq<byte>)
    requires at + n <= mem.Length && |bytes| == n && word == Word(bytes)
    modifies mem
    ensures mem[..at] == old(mem[..at]) && mem[at + n..] == old(mem[at + n..])
    ensures mem[at..at + n] == XorEach(old(mem[at..at + n]), bytes)
  {
    var w := Xor(Word(mem[at..at + n]), word);
    XorWords(mem[at..at + n], bytes);
    WordOctets(XorEach(mem[at..at + n], bytes));
    var out := Octets(w, n);
    forall i | 0 <= i < n {
      mem[at + i] := out[i];
    }
  }

  /** Little-endian, so the low byte is the first octet, and eight bytes hold the key twice. */
  method KeyWords(m0: byte, m1: byte, m2: byte, m3: byte) returns (word: nat, dword: nat)
    ensures var key := [m0, m1, m2, m3]; word == Word(key) && dword == Word(key + key)
  {
    word := m0 as nat + 0x100 * m1 as nat + 0x1_0000 * m2 as nat + 0x100_0000 * m3 as nat;
    dword := word + 0x1_0000_0000 * word;
    ghost var key := [m0, m1, m2, m3];
    WordOfFour(key, []);
    assert key + [] == key;
    WordOfFour(key, key);
  }

  lemma WordFront(b: byte, rest: seq<byte>)
    ensures Word([b] + rest) == b as nat + 256 * Word(rest)
  {
    assert ([b] + rest)[1..] == rest;
  }

  lemma WordOfFour(key: seq<byte>, rest: seq<byte>)
    requires |key| == 4
    ensures Word(key + rest) == key[0] as nat + 0x100 * key[1] as nat + 0x1_0000 * key[2] as nat + 0x100_0000 * key[3] as nat
                                + 0x1_0000_0000 * Word(rest)
  {
    WordFront(key[3], rest);
    WordFront(key[2], [key[3]] + rest);
    WordFront(key[1], [key[2]] + ([key[3]] + rest));
    WordFront(key[0], [key[1]] + ([key[2]] + ([key[3]] + rest)));
    assert key + rest == [key[0]] + ([key[1]] + ([key[2]] + ([key[3]] + rest)));
  }

  /** The whole run: groups of eight, at most one of four, and up to three single bytes. */
  method MaskRun(mem: array<byte>, ptr: nat, len: nat, m0: byte, m1: byte, m2: byte, m3: byte)
    requires ptr + len <= mem.Length
    modifies mem
    ensures mem[..ptr] == old(mem[..ptr]) && mem[ptr + len..] == old(mem[ptr + len..])
    ensures mem[ptr..ptr + len] == Mask(old(mem[ptr..ptr + len]), [m0, m1, m2, m3])
  {
    hide Mask, XorEach, Word, XorByte, Masked, Xor;
    ghost var key := [m0, m1, m2, m3];
    ghost var was, before, after := mem[ptr..ptr + len], mem[..ptr], mem[ptr + len..];
    var word, dword := KeyWords(m0, m1, m2, m3);
    MaskedStart(mem[..], ptr, was, key, before, after);
    var i := MaskEights(mem, ptr, len - len % 8, dword, was, key, before, after);
    if i + 4 <= len {
      XorGroup(mem, ptr, i, word, 4, key, was, key, before, after);
      i := i + 4;
    }
    MaskTail(mem, ptr, i, len, m0, m1, m2, m3, was, key, before, after);
    MaskedEnd(mem[..], ptr, was, key, before, after);
    Slices(mem, ptr, ptr + len);
  }

  lemma Slices(mem: array<byte>, a: nat, b: nat)
    requires a <= b <= mem.Length
    ensures mem[..a] == mem[..][..a] && mem[a..b] == mem[..][a..b] && mem[b..] == mem[..][b..]
  {
  }

  /** The bytes left over, one at a time. */
  method MaskTail(mem: array<byte>, ptr: nat, from: nat, len: nat, m0: byte, m1: byte, m2: byte, m3: byte,
                  ghost was: seq<byte>, ghost key: seq<byte>, ghost before: seq<byte>, ghost after: seq<byte>)
    requires key == [m0, m1, m2, m3] && from <= len == |was| && ptr + |was| <= mem.Length
    requires Masked(mem[..], ptr, from, was, key, before, after)
    modifies mem
    ensures Masked(mem[..], ptr, len, was, key, before, after)
  {
    hide Mask, XorByte, Masked;
    var i := from;
    while i < len
      invariant from <= i <= len
      invariant Masked(mem[..], ptr, i, was, key, before, after)
    {
      var mb := i % 4;
      var mask := if mb == 0 then m0 else if mb == 1 then m1 else if mb == 2 then m2 else m3;
      StoreMasked(mem, ptr, i, mask, was, key, before, after);
      i := i + 1;
    }
  }

  /** The run's whole groups of eight. */
  method MaskEights(mem: array<byte>, ptr: nat, eights: nat, dword: nat,
                    ghost was: seq<byte>, ghost key: seq<byte>, ghost before: seq<byte>, ghost after: seq<byte>) returns (i: nat)
    requires |key| == 4 && dword == Word(key + key) && eights % 8 == 0 && eights <= |was|
    requires ptr + |was| <= mem.Length && |before| == ptr && Masked(mem[..], ptr, 0, was, key, before, after)
    modifies mem
    ensures i == eights && Masked(mem[..], ptr, i, was, key, before, after)
  {
    hide Mask, XorEach, Word, XorByte, Masked, Xor;
    i := 0;
    while i < eights
      invariant 0 <= i <= eights && i % 8 == 0
      invariant Masked(mem[..], ptr, i, was, key, before, after)
    {
      XorGroup(mem, ptr, i, dword, 8, key + key, was, key, before, after);
      i := i + 8;
    }
  }

  lemma MaskedStart(mem: seq<byte>, ptr: nat, was: seq<byte>, key: seq<byte>, before: seq<byte>, after: seq<byte>)
    requires |key| == 4 && ptr + |was| <= |mem| && before == mem[..ptr] && was == mem[ptr..ptr + |was|] && after == mem[ptr + |was|..]
    ensures Masked(mem, ptr, 0, was, key, before, after)
  {
    MaskNothing(key);
    assert was[..0] == [] && was[0..] == was;
  }

  lemma MaskedEnd(mem: seq<byte>, ptr: nat, was: seq<byte>, key: seq<byte>, before: seq<byte>, after: seq<byte>)
    requires |key| == 4 && Masked(mem, ptr, |was|, was, key, before, after)
    ensures |mem| == ptr + |was| + |after|
    ensures mem[..ptr] == before && mem[ptr..ptr + |was|] == Mask(was, key) && mem[ptr + |was|..] == after
  {
    assert was[..|was|] == was && was[|was|..] == [];
  }

  lemma MaskNothing(key: seq<byte>)
    requires |key| == 4
    ensures Mask([], key) == []
  {
  }

  lemma MaskOne(was: seq<byte>, i: nat, key: seq<byte>)
    requires i < |was| && |key| == 4
    ensures Mask(was[..i + 1], key) == Mask(was[..i], key) + [XorByte(was[i], key[i % 4])]
  {
  }

  /** The first `i` bytes of the run are masked, and nothing else in memory has changed. */
  ghost predicate Masked(mem: seq<byte>, ptr: nat, i: nat, was: seq<byte>, key: seq<byte>, before: seq<byte>, after: seq<byte>)
    requires |key| == 4
  {
    i <= |was| && mem == before + Mask(was[..i], key) + was[i..] + after && |before| == ptr
  }

  method XorGroup(mem: array<byte>, ptr: nat, i: nat, word: nat, n: nat, ghost bytes: seq<byte>,
                  ghost was: seq<byte>, ghost key: seq<byte>, ghost before: seq<byte>, ghost after: seq<byte>)
    requires |key| == 4 && |bytes| == n && word == Word(bytes) && i % 4 == 0 && i + n <= |was|
    requires ptr + |was| <= mem.Length && |before| == ptr
    requires (n == 4 && bytes == key) || (n == 8 && bytes == key + key)
    requires Masked(mem[..], ptr, i, was, key, before, after)
    modifies mem
    ensures Masked(mem[..], ptr, i + n, was, key, before, after)
  {
    hide XorEach, Word, XorByte, Mask, Xor, Masked;
    ghost var group, all := was[i..i + n], mem[..];
    MaskedParts(all, ptr, i, n, was, key, before, after);
    assert mem[ptr + i..ptr + i + n] == all[ptr + i..ptr + i + n];
    assert mem[..ptr + i] == all[..ptr + i] && mem[ptr + i + n..] == all[ptr + i + n..];
    XorWordAt(mem, ptr + i, word, n, bytes);
    if n == 4 { MaskFour(group, key); } else { MaskEight(group, key); }
    assert mem[..] == mem[..ptr + i] + mem[ptr + i..ptr + i + n] + mem[ptr + i + n..];
    MaskedMore(mem[..], ptr, i, n, was, key, before, after);
  }

  lemma MaskedParts(mem: seq<byte>, ptr: nat, i: nat, n: nat, was: seq<byte>, key: seq<byte>, before: seq<byte>, after: seq<byte>)
    requires |key| == 4 && i + n <= |was| && Masked(mem, ptr, i, was, key, before, after)
    ensures |mem| == ptr + |was| + |after| && mem[..ptr + i] == before + Mask(was[..i], key)
    ensures mem[ptr + i..ptr + i + n] == was[i..i + n] && mem[ptr + i + n..] == was[i + n..] + after
  {
    hide Mask;
    assert was[i..] == was[i..i + n] + was[i + n..];
  }

  lemma MaskedMore(mem: seq<byte>, ptr: nat, i: nat, n: nat, was: seq<byte>, key: seq<byte>, before: seq<byte>, after: seq<byte>)
    requires |key| == 4 && i % 4 == 0 && i + n <= |was| && |before| == ptr
    requires mem == before + Mask(was[..i], key) + Mask(was[i..i + n], key) + (was[i + n..] + after)
    ensures Masked(mem, ptr, i + n, was, key, before, after)
  {
    hide Mask;
    assert was[..i + n] == was[..i] + was[i..i + n];
    MaskRunOn(was[..i], was[i..i + n], key);
  }

  method StoreMasked(mem: array<byte>, ptr: nat, i: nat, mask: byte,
                     ghost was: seq<byte>, ghost key: seq<byte>, ghost before: seq<byte>, ghost after: seq<byte>)
    requires |key| == 4 && i < |was| && Masked(mem[..], ptr, i, was, key, before, after) && mask == key[i % 4]
    modifies mem
    ensures Masked(mem[..], ptr, i + 1, was, key, before, after)
  {
    hide XorByte, Mask;
    MaskOne(was, i, key);
    ghost var all := mem[..];
    assert all[ptr + i] == was[i];
    mem[ptr + i] := XorByte(mem[ptr + i], mask);
    assert mem[..] == all[..ptr + i] + [XorByte(was[i], mask)] + all[ptr + i + 1..];
    assert all[..ptr + i] == before + Mask(was[..i], key) && all[ptr + i + 1..] == was[i + 1..] + after;
  }

  // ── a whole frame ──────────────────────────────────────────────────────────────────

  /** The header length a frame's second byte declares, with the key. */
  function KeyedHead(b1: byte): nat {
    (if b1 % 128 == 127 then 10 else if b1 % 128 == 126 then 4 else 2) + 4
  }

  /** The frame that masks or unmasks a frame, which carries its own key; None when the bytes
      end before the header they declare. */
  function MaskFrame(frame: seq<byte>): Option<seq<byte>> {
    if |frame| < 2 || |frame| < KeyedHead(frame[1]) then None
    else
      var head := KeyedHead(frame[1]);
      Some(frame[..head] + Mask(frame[head..], frame[head - 4..head]))
  }

  lemma MaskFrameCases(frame: seq<byte>)
    ensures |frame| < 2 || |frame| < KeyedHead(frame[1]) ==> MaskFrame(frame).None?
    ensures |frame| >= 2 ==> KeyedHead(frame[1]) >= 6
    ensures |frame| >= 2 && |frame| >= KeyedHead(frame[1]) ==>
              var head := KeyedHead(frame[1]);
              MaskFrame(frame) == Some(frame[..head] + Mask(frame[head..], frame[head - 4..head]))
  {
  }

  /** Move the frame over the op byte in front of it. */
  method DropOp(scratch: array<byte>, len: nat)
    requires len < scratch.Length
    modifies scratch
    ensures scratch[..len] == old(scratch[1..len + 1]) && scratch[len + 1..] == old(scratch[len + 1..])
  {
    forall i | 0 <= i < len {
      scratch[i] := scratch[i + 1];
    }
  }

  /** The request `[op][frame]` sits in `scratch`; the answer replaces it, 0 for a refusal. */
  method OpMask(scratch: array<byte>, input: nat) returns (len: nat)
    requires 1 <= input <= scratch.Length
    modifies scratch
    ensures var r := MaskFrame(old(scratch[1..input]));
            && (r.None? ==> len == 0 && scratch[..] == old(scratch[..]))
            && (r.Some? ==> len == input - 1 && scratch[..len] == r.value && scratch[input..] == old(scratch[input..]))
  {
    hide Mask, XorByte, KeyedHead, MaskFrame;
    ghost var frame := scratch[1..input];
    MaskFrameCases(frame);
    len := input - 1;
    if len < 2 {
      return 0;
    }
    var head := KeyedHead(scratch[2]);
    assert frame[1] == scratch[2];
    if len < head {
      return 0;
    }
    DropOp(scratch, len);
    MaskPart(scratch, head, len, frame);
  }

  /** The part of the frame behind its header, under the key in front of it. */
  method MaskPart(scratch: array<byte>, head: nat, len: nat, ghost frame: seq<byte>)
    requires 4 <= head <= len == |frame| < scratch.Length && scratch[..len] == frame
    modifies scratch
    ensures scratch[..len] == frame[..head] + Mask(frame[head..], frame[head - 4..head])
    ensures scratch[len + 1..] == old(scratch[len + 1..])
  {
    hide Mask;
    var k := head - 4;
    assert forall i :: 0 <= i < len ==> scratch[..len][i] == scratch[i];
    assert [scratch[k], scratch[k + 1], scratch[k + 2], scratch[k + 3]] == frame[k..head];
    assert scratch[head..head + (len - head)] == frame[head..];
    assert scratch[..head] == frame[..head];
    MaskRun(scratch, head, len - head, scratch[k], scratch[k + 1], scratch[k + 2], scratch[k + 3]);
    assert scratch[..len] == scratch[..head] + scratch[head..head + (len - head)];
    assert scratch[len + 1..] == scratch[head + (len - head)..][1..];
  }

  /** Masking a frame twice is the identity: its header, which holds the key, stays clear. */
  lemma MaskFrameUndoes(frame: seq<byte>)
    requires MaskFrame(frame).Some?
    ensures MaskFrame(MaskFrame(frame).value) == Some(frame)
  {
    hide Mask, KeyedHead, MaskFrame;
    MaskFrameCases(frame);
    var head := KeyedHead(frame[1]);
    var key, masked := frame[head - 4..head], MaskFrame(frame).value;
    HeadKept(frame, head, Mask(frame[head..], key), masked);
    MaskFrameCases(masked);
    MaskUndoes(frame[head..], key);
    assert frame[..head] + frame[head..] == frame;
  }

  /** Another payload behind the same header leaves the header, and the key in it. */
  lemma HeadKept(frame: seq<byte>, head: nat, body: seq<byte>, masked: seq<byte>)
    requires 6 <= head <= |frame| && masked == frame[..head] + body && |body| == |frame| - head
    ensures |masked| == |frame| && masked[1] == frame[1] && masked[..head] == frame[..head] && masked[head..] == body
    ensures masked[head - 4..head] == frame[head - 4..head]
  {
  }
}
