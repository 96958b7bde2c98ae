/** Small shared vocabulary: bytes, optional values, numbers extended with the two
    infinities the program uses for "never", and sums over maps and sequences. */
module Base {
  newtype byte = x: int | 0 <= x < 256
  type Bytes = seq<byte>

  datatype Option<+T> = None | Some(value: T)

  /** A time or a size that may be JavaScript's Infinity or -Infinity. */
  datatype Ext = NegInf | Fin(r: real) | PosInf

  predicate Lt(a: Ext, b: Ext) {
    match a
    case NegInf => b != NegInf
    case Fin(x) => b.PosInf? || (b.Fin? && x < b.r)
    case PosInf => false
  }

  predicate Le(a: Ext, b: Ext) { !Lt(b, a) }

  function ExtMin(a: Ext, b: Ext): (m: Ext)
    ensures Le(m, a) && Le(m, b) && (m == a || m == b)
  {
    if Lt(b, a) then b else a
  }

  function ExtMax(a: Ext, b: Ext): (m: Ext)
    ensures Le(a, m) && Le(b, m) && (m == a || m == b)
  {
    if Lt(a, b) then b else a
  }

  function Min(a: int, b: int): int { if a <= b then a else b }
  function Max(a: int, b: int): int { if a <= b then b else a }
  function RMin(a: real, b: real): real { if a <= b then a else b }
  function RMax(a: real, b: real): real { if a <= b then b else a }
  function RAbs(a: real): real { if a < 0.0 then -a else a }

  function Pow2(n: nat): (p: real)
    ensures p >= 1.0
  {
    if n == 0 then 1.0 else 2.0 * Pow2(n - 1)
  }

  /** Some key; naming the choice makes the sum below one term, not a new choice at each use. */
  ghost function Pick<V(!new)>(m: map<nat, V>): (k: nat)
    requires |m| > 0
    ensures k in m
  {
    var k :| k in m;
    k
  }

  /** The sum of f over the keys of m. */
  ghost function SumMap<V(!new)>(m: map<nat, V>, f: V -> int): int
    decreases |m|
  {
    if |m| == 0 then 0 else f(m[Pick(m)]) + SumMap(m - {Pick(m)}, f)
  }

  /** The sum does not depend on the order the keys are taken in: any key may go first. */
  lemma {:induction false} SumMapSplit<V(!new)>(m: map<nat, V>, f: V -> int, k: nat)
    requires k in m
    ensures SumMap(m, f) == f(m[k]) + SumMap(m - {k}, f)
    decreases |m|
  {
    var h := Pick(m);
    if h != k {
      var mh, mk := m - {h}, m - {k};
      SumMapSplit(mh, f, k);
      SumMapSplit(mk, f, h);
      RemoveTwo(m, h, k);
    }
  }

  lemma RemoveTwo<V>(m: map<nat, V>, h: nat, k: nat)
    ensures m - {h} - {k} == m - {k} - {h}
  {
    assert (m - {h} - {k}).Keys == (m - {k} - {h}).Keys;
  }

  lemma SumMapAdd<V(!new)>(m: map<nat, V>, f: V -> int, k: nat, v: V)
    requires k !in m
    ensures SumMap(m[k := v], f) == f(v) + SumMap(m, f)
  {
    SumMapSplit(m[k := v], f, k);
    assert m[k := v] - {k} == m;
  }

  function SumSeq(s: seq<nat>): nat {
    if s == [] then 0 else s[0] + SumSeq(s[1..])
  }

  lemma {:induction false} SumSeqConcat(a: seq<nat>, b: seq<nat>)
    ensures SumSeq(a + b) == SumSeq(a) + SumSeq(b)
  {
    if a == [] {
      assert a + b == b;
    } else {
      assert (a + b)[1..] == a[1..] + b;
      SumSeqConcat(a[1..], b);
    }
  }

  /** All the bytes of a list of pieces, in order. */
  function Flat<T>(ps: seq<seq<T>>): seq<T> {
    if ps == [] then [] else ps[0] + Flat(ps[1..])
  }

  lemma {:induction false} FlatConcat<T>(a: seq<seq<T>>, b: seq<seq<T>>)
    ensures Flat(a + b) == Flat(a) + Flat(b)
  {
    if a == [] {
      assert a + b == b;
    } else {
      assert (a + b)[1..] == a[1..] + b;
      FlatConcat(a[1..], b);
    }
  }

  lemma FlatSnoc<T>(a: seq<seq<T>>, p: seq<T>)
    ensures Flat(a + [p]) == Flat(a) + p
  {
    FlatConcat(a, [p]);
    assert Flat([p]) == p;
  }

  /** Big-endian numbers of two and four bytes, as frames and nonces carry them. */
  function U16(b: seq<byte>): nat
    requires |b| == 2
  {
    256 * b[0] as nat + b[1] as nat
  }

  function U32(b: seq<byte>): nat
    requires |b| == 4
  {
    0x1_0000 * U16(b[..2]) + U16(b[2..])
  }

  /** A number past the field's width is written modulo it. */
  function Put16(n: nat): (b: seq<byte>)
    ensures |b| == 2 && (n < 0x1_0000 ==> U16(b) == n)
  {
    [(n / 256 % 256) as byte, (n % 256) as byte]
  }

  function Put32(n: nat): (b: seq<byte>)
    ensures |b| == 4 && (n < 0x1_0000_0000 ==> U32(b) == n)
  {
    var b := Put16(n / 0x1_0000) + Put16(n % 0x1_0000);
    assert b[..2] == Put16(n / 0x1_0000) && b[2..] == Put16(n % 0x1_0000);
    b
  }
}
