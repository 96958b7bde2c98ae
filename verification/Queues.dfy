/** The two queues the transport is built on: `Pieces`, bytes queued in the pieces they came in
    (WASM/transport/src/util.js), and `Fifo` (WASM/host/util.ts). Each is proved to be the plain
    sequence it stands for, through head indices, compaction and, for `Pieces`, an accumulator
    that grows in place under views it has already handed out. */
module ByteQueue {
  import opened Base

  /** A view of `len` bytes of a buffer, from `off`. */
  datatype View = View(buf: array<byte>, off: nat, len: nat) {
    function End(): nat { off + len }
    predicate Within() { End() <= buf.Length }
    ghost predicate Below(acc: View) { buf != acc.buf || End() <= acc.End() }
    ghost function Bytes(): (s: seq<byte>)
      requires Within()
      reads buf
      ensures |s| == len
    {
      buf[off..End()]
    }
  }

  ghost predicate AllWithin(vs: seq<View>, bufs: set<array<byte>>) {
    forall i :: 0 <= i < |vs| ==> vs[i].Within() && vs[i].buf in bufs
  }

  ghost predicate Sizes(vs: seq<View>, parts: seq<seq<byte>>) {
    |vs| == |parts| && forall i :: 0 <= i < |vs| ==> vs[i].len == |parts[i]| > 0
  }

  ghost predicate AllBelow(vs: seq<View>, acc: View) { forall i :: 0 <= i < |vs| ==> vs[i].Below(acc) }

  ghost predicate AllHold(vs: seq<View>, parts: seq<seq<byte>>, bufs: set<array<byte>>)
    requires |vs| == |parts| && AllWithin(vs, bufs)
    reads bufs
  {
    forall i :: 0 <= i < |vs| ==> vs[i].Bytes() == parts[i]
  }

  /** The pieces from `head` on, and a place in the first of them. */
  ghost predicate At(parts: seq<seq<byte>>, head: nat, at: nat) {
    head <= |parts| && if head == |parts| then at == 0 else at < |parts[head]|
  }

  /** What is left of the pieces from there. */
  ghost function Live(parts: seq<seq<byte>>, head: nat, at: nat): seq<byte>
    requires At(parts, head, at)
  {
    if head == |parts| then [] else parts[head][at..] + Flat(parts[head + 1..])
  }

  lemma LiveSnoc(parts: seq<seq<byte>>, head: nat, at: nat, x: seq<byte>)
    requires At(parts, head, at) && |x| > 0
    ensures At(parts + [x], head, at) && Live(parts + [x], head, at) == Live(parts, head, at) + x
  {
    if head < |parts| {
      assert (parts + [x])[head + 1..] == parts[head + 1..] + [x];
      FlatSnoc(parts[head + 1..], x);
    }
  }

  /** More bytes on the last piece are more bytes on the end. */
  lemma FlatGrow(front: seq<seq<byte>>, last: seq<byte>, x: seq<byte>)
    ensures Flat(front + [last + x]) == Flat(front + [last]) + x
  {
    FlatSnoc(front, last);
    FlatSnoc(front, last + x);
  }

  lemma LiveGrow(parts: seq<seq<byte>>, head: nat, at: nat, x: seq<byte>)
    requires At(parts, head, at) && head < |parts|
    ensures var more := parts[|parts| - 1 := parts[|parts| - 1] + x];
            At(more, head, at) && Live(more, head, at) == Live(parts, head, at) + x
  {
    if head < |parts| - 1 { GrowLater(parts, head, at, x); } else { GrowFront(parts, head, at, x); }
  }

  lemma LastOff(parts: seq<seq<byte>>, k: nat, y: seq<byte>)
    requires k < |parts|
    ensures parts[|parts| - 1 := y][k..] == parts[k..|parts| - 1] + [y]
  {
  }

  lemma Regroup(a: seq<byte>, b: seq<byte>, x: seq<byte>)
    ensures a + (b + x) == a + b + x
  {
  }

  lemma GrowLater(parts: seq<seq<byte>>, head: nat, at: nat, x: seq<byte>)
    requires At(parts, head, at) && head < |parts| - 1
    ensures var more := parts[|parts| - 1 := parts[|parts| - 1] + x];
            At(more, head, at) && Live(more, head, at) == Live(parts, head, at) + x
  {
    hide Flat;
    var last := |parts| - 1;
    var more, front := parts[last := parts[last] + x], parts[head + 1..last];
    FlatGrow(front, parts[last], x);
    LastOff(parts, head + 1, parts[last]);
    LastOff(parts, head + 1, parts[last] + x);
    assert parts[last := parts[last]] == parts && more[head] == parts[head];
    Regroup(parts[head][at..], Flat(front + [parts[last]]), x);
  }

  lemma GrowFront(parts: seq<seq<byte>>, head: nat, at: nat, x: seq<byte>)
    requires At(parts, head, at) && head == |parts| - 1
    ensures var more := parts[head := parts[head] + x];
            At(more, head, at) && Live(more, head, at) == Live(parts, head, at) + x
  {
    var more := parts[head := parts[head] + x];
    assert more[head + 1..] == [] && parts[head + 1..] == [];
    assert (parts[head] + x)[at..] == parts[head][at..] + x;
  }

  lemma LiveFront(parts: seq<seq<byte>>, head: nat, at: nat, k: nat)
    requires At(parts, head, at) && head < |parts| && at + k <= |parts[head]|
    ensures k <= |Live(parts, head, at)| && Live(parts, head, at)[..k] == parts[head][at..at + k]
    ensures at + k < |parts[head]| ==> Live(parts, head, at + k) == Live(parts, head, at)[k..]
  {
    assert parts[head][at..][..k] == parts[head][at..at + k];
  }

  lemma LiveNext(parts: seq<seq<byte>>, head: nat, at: nat)
    requires At(parts, head, at) && head < |parts| && (head + 1 < |parts| ==> |parts[head + 1]| > 0)
    ensures At(parts, head + 1, 0) && Live(parts, head, at) == parts[head][at..] + Live(parts, head + 1, 0)
  {
    if head + 1 < |parts| { assert parts[head + 1..][1..] == parts[head + 2..]; }
  }

  lemma LiveAny(parts: seq<seq<byte>>, head: nat, at: nat)
    requires At(parts, head, at)
    ensures Live(parts, head, at) != [] <==> head < |parts|
  {
  }

  lemma LiveCompact(parts: seq<seq<byte>>, head: nat, at: nat)
    requires At(parts, head, at)
    ensures At(parts[head..], 0, at) && Live(parts[head..], 0, at) == Live(parts, head, at)
  {
    if head < |parts| { assert parts[head..][1..] == parts[head + 1..]; }
  }

  /** Writing past an accumulator's end changes nothing below it. */
  lemma UsedKept(was: seq<byte>, now: seq<byte>, acc: View, v: View)
    requires acc.Within() && v.Within() && |was| == |now| == acc.buf.Length
    requires now[..acc.End()] == was[..acc.End()] && v.Below(acc)
    ensures v.buf == acc.buf ==> now[v.off..v.End()] == was[v.off..v.End()]
  {
    if v.buf == acc.buf {
      assert now[v.off..v.End()] == now[..acc.End()][v.off..v.End()];
      assert was[v.off..v.End()] == was[..acc.End()][v.off..v.End()];
    }
  }

  /** A stretch of a sequence in two parts. */
  lemma Cut(s: seq<byte>, a: nat, b: nat, c: nat)
    requires a <= b <= c <= |s|
    ensures s[a..c] == s[..b][a..] + s[b..c]
  {
  }

  lemma Extend(s: seq<byte>, n: nat, k: nat)
    requires n + k <= |s|
    ensures s[..n + k] == s[..n] + s[n..][..k] && s[n + k..] == s[n..][k..]
  {
  }

  method Copy(into: array<byte>, at: nat, from: View)
    requires from.Within() && at + from.len <= into.Length && (into != from.buf || from.End() <= at)
    modifies into
    ensures into[..at] == old(into[..at]) && into[at + from.len..] == old(into[at + from.len..])
    ensures into[at..at + from.len] == old(from.Bytes())
  {
    forall i | 0 <= i < from.len {
      into[at + i] := from.buf[from.off + i];
    }
  }

  class Pieces {
    /** The pieces, those before `head` consumed. */
    var list: seq<View>
    var head: nat
    /** How far into the piece at `head` the queue begins. */
    var at: nat
    var bytes: nat
    const mergeBelow: nat
    /** The last piece while small ones join it, or -1. When owned, its buffer was made here,
        and what lies past its end is free to be written. */
    var tail: int
    var tailOwned: bool
    /** What each piece holds, what each view handed out held then, and every buffer any of
        them is a view of. */
    ghost var parts: seq<seq<byte>>
    ghost var handed: seq<View>
    ghost var gave: seq<seq<byte>>
    ghost var bufs: set<array<byte>>

    ghost predicate Shape()
      reads this
    {
      && AllWithin(list, bufs) && Sizes(list, parts) && At(parts, head, at)
      && AllWithin(handed, bufs) && |handed| == |gave|
      && (tail == -1 || head <= tail == |list| - 1)
    }

    /** Every piece still holds what was pushed, and every view handed out what it held. */
    ghost predicate Intact()
      requires Shape()
      reads this, bufs
    {
      AllHold(list, parts, bufs) && AllHold(handed, gave, bufs)
    }

    ghost predicate Owns()
      requires Shape()
      reads this
    {
      tail >= 0 && tailOwned
    }

    /** Nothing looks past the end of an owned accumulator. */
    ghost predicate SpareUnseen()
      requires Shape()
      reads this
    {
      Owns() ==> AllBelow(list, list[tail]) && AllBelow(handed, list[tail])
    }

    ghost predicate Sound()
      reads this, bufs
    {
      Shape() && Intact() && SpareUnseen()
    }

    /** The queue as the plain sequence of its bytes. */
    ghost function Contents(): seq<byte>
      requires Shape()
      reads this
    {
      Live(parts, head, at)
    }

    ghost predicate Valid()
      reads this, bufs
    {
      Sound() && bytes == |Contents()|
    }

    constructor (mergeBelow: nat)
      ensures Valid() && Contents() == [] && fresh(bufs) && this.mergeBelow == mergeBelow && handed == []
    {
      this.mergeBelow := mergeBelow;
      list, head, at, bytes, tail, tailOwned := [], 0, 0, 0, -1, false;
      parts, handed, gave, bufs := [], [], [], {};
    }

    // ── pushing ────────────────────────────────────────────────────────────────────────

    /** Queue a piece, borrowed from the caller, who has no view of an accumulator's spare. */
    method Push(piece: View)
      requires Valid() && piece.Within() && (Owns() ==> piece.Below(list[tail]))
      modifies this, if Owns() then {list[tail].buf} else {}
      ensures Valid() && Contents() == old(Contents()) + old(piece.Bytes())
      ensures handed == old(handed) && gave == old(gave)
    {
      hide AllWithin, Sizes, AllHold, AllBelow, Live, At, View.Below;
      if piece.len == 0 {
        assert piece.Bytes() == [];
        return;
      }
      bytes := bytes + piece.len;
      // Keep sets `tail` for each of the first two cases.
      if piece.len >= mergeBelow {
        Keep(piece, false);
      } else if tail < 0 {
        Keep(piece, true);
      } else if tailOwned && piece.len <= list[tail].buf.Length - list[tail].End() {
        GrowInPlace(piece);
      } else {
        Regrow(piece);
      }
    }

    /** A piece queued as it came, which may begin an accumulator. */
    method Keep(piece: View, begins: bool)
      requires Sound() && piece.Within() && piece.len > 0
      modifies `list, `parts, `bufs, `tail, `tailOwned
      ensures Sound() && Contents() == old(Contents()) + piece.Bytes()
    {
      hide Live, Flat;
      LiveSnoc(parts, head, at, piece.Bytes());
      tail, tailOwned := if begins then |list| else -1, false;
      list := list + [piece];
      parts := parts + [piece.Bytes()];
      bufs := bufs + {piece.buf};
    }

    /** The owned accumulator takes the piece into its spare capacity. */
    method GrowInPlace(piece: View)
      requires Sound() && Owns() && piece.Within() && piece.Below(list[tail])
      requires list[tail].End() + piece.len <= list[tail].buf.Length
      modifies `list, `parts, list[tail].buf
      ensures Sound() && Contents() == old(Contents()) + old(piece.Bytes())
    {
      hide Live, Flat, At;
      var cur := list[tail];
      LiveGrow(parts, head, at, piece.Bytes());
      WriteSpare(piece);
      ghost var more := parts[tail] + old(piece.Bytes());
      list := list[tail := View(cur.buf, cur.off, cur.len + piece.len)];
      parts := parts[tail := more];
    }

    /** Copying into the spare leaves every piece and every view as it was. */
    method WriteSpare(piece: View)
      requires Sound() && Owns() && piece.Within() && piece.Below(list[tail])
      requires list[tail].End() + piece.len <= list[tail].buf.Length
      modifies list[tail].buf
      ensures Sound()
      ensures View(list[tail].buf, list[tail].off, list[tail].len + piece.len).Bytes() == parts[tail] + old(piece.Bytes())
    {
      var cur := list[tail];
      Copy(cur.buf, cur.End(), piece);
      forall i | 0 <= i < |handed| ensures handed[i].Bytes() == gave[i] {
        UsedKept(old(cur.buf[..]), cur.buf[..], cur, handed[i]);
      }
      forall i | 0 <= i < |list| ensures list[i].Bytes() == parts[i] {
        UsedKept(old(cur.buf[..]), cur.buf[..], cur, list[i]);
      }
      assert cur.buf[cur.off..cur.End() + piece.len] == cur.Bytes() + cur.buf[cur.End()..cur.End() + piece.len];
    }

    /** A new accumulator of twice the size, the old one left as it is. */
    method Regrow(piece: View)
      requires Sound() && piece.Within() && tail >= 0
      modifies `list, `parts, `bufs, `tailOwned
      ensures Sound() && Contents() == old(Contents()) + piece.Bytes()
    {
      hide Live, Flat, At;
      LiveGrow(parts, head, at, piece.Bytes());
      var both := Merge(list[tail], piece);
      list := list[tail := both];
      tailOwned := true;
      parts := parts[tail := parts[tail] + piece.Bytes()];
      bufs := bufs + {both.buf};
    }

    method Merge(cur: View, piece: View) returns (both: View)
      requires cur.Within() && piece.Within()
      ensures both.Within() && fresh(both.buf) && both.Bytes() == cur.Bytes() + piece.Bytes()
    {
      var want := cur.len + piece.len;
      var buf := new byte[Max(mergeBelow, want * 2)];
      Copy(buf, 0, cur);
      Copy(buf, cur.len, piece);
      both := View(buf, 0, want);
      assert buf[0..want] == buf[..cur.len] + buf[cur.len..want];
      assert buf[..cur.len] == cur.Bytes();
    }

    // ── consuming ──────────────────────────────────────────────────────────────────────

    /** Drop the front piece, and the consumed ones once they outnumber the live. */
    method Shift()
      requires Sound() && head < |list|
      modifies `list, `head, `at, `tail, `parts
      ensures Sound() && old(Contents()) == old(parts[head][at..]) + Contents()
    {
      hide Live, Flat, AllHold;
      LiveNext(parts, head, at);
      if tail == head {
        tail := -1;
      }
      head := head + 1;
      at := 0;
      if head >= 1024 && head * 2 >= |list| {
        Compact();
      }
    }

    method Compact()
      requires Sound()
      modifies `list, `head, `tail, `parts
      ensures Sound() && Contents() == old(Contents())
    {
      hide Live, Flat;
      LiveCompact(parts, head, at);
      list := list[head..];
      parts := parts[head..];
      if tail >= 0 {
        tail := tail - head;
      }
      head := 0;
    }

    /** Step past `k` bytes of the front piece. */
    method Advance(k: nat)
      requires Sound() && head < |list| && at + k <= list[head].len
      modifies `list, `head, `at, `tail, `parts
      ensures Sound() && |old(Contents())| >= k && Contents() == old(Contents())[k..]
    {
      hide AllWithin, AllHold, AllBelow, Live, View.Below;
      LiveFront(parts, head, at, k);
      if at + k == list[head].len {
        Shift();
      } else {
        at := at + k;
      }
    }

    /** The next bytes of the piece at `i`, from the one at `from` on. */
    ghost method Next(i: nat, from: nat, k: nat)
      requires Sound() && At(parts, i, from) && i < |list| && from + k <= list[i].len
      ensures var v := View(list[i].buf, list[i].off + from, k);
              v.Within() && v.buf in bufs && |Live(parts, i, from)| >= k && v.Bytes() == Live(parts, i, from)[..k]
    {
      LiveFront(parts, i, from, k);
      assert list[i].Bytes()[from..from + k] == parts[i][from..from + k];
    }

    /** `n` bytes consumed. They are a view where the front piece has them all, and then recorded
        as handed out; otherwise a fresh copy; and nothing for `n` of 0. */
    method Take(n: nat) returns (out: Option<View>)
      requires Valid() && n <= bytes
      modifies this
      ensures Valid() && Contents() == old(Contents())[n..]
      ensures out.Some? <==> n > 0
      ensures n > 0 ==> out.value.Within() && out.value.Bytes() == old(Contents())[..n]
      ensures n > 0 ==> out.value in handed || fresh(out.value.buf)
      ensures old(handed) <= handed && old(gave) <= gave
    {
      hide AllWithin, AllHold, AllBelow, Live, View.Below;
      if n == 0 {
        return None;
      }
      SomeLive();
      if n <= list[head].len - at {
        var v := View(list[head].buf, list[head].off + at, n);
        Next(head, at, n);
        Hand(v);
        bytes := bytes - n;
        Advance(n);
        return Some(v);
      }
      var copy := new byte[n];
      Consume(n, copy, 0);
      assert copy[0..n] == copy[..];
      return Some(View(copy, 0, n));
    }

    ghost method SomeLive()
      requires Shape() && Contents() != []
      ensures head < |list|
    {
    }

    ghost method Hand(v: View)
      requires Sound() && v.Within() && head < |list| && v.buf == list[head].buf && v.End() <= list[head].End()
      modifies `handed, `gave
      ensures Sound() && handed == old(handed) + [v] && gave == old(gave) + [v.Bytes()]
    {
      handed := handed + [v];
      gave := gave + [v.Bytes()];
    }

    /** `n` bytes consumed, always into a fresh buffer, behind `prefix` bytes left to fill. */
    method TakeCopy(n: nat, prefix: nat) returns (out: array<byte>)
      requires Valid() && n <= bytes
      modifies this
      ensures Valid() && Contents() == old(Contents())[n..] && fresh(out)
      ensures out.Length == prefix + n && out[prefix..] == old(Contents())[..n]
      ensures handed == old(handed) && gave == old(gave) && bufs == old(bufs)
    {
      hide AllWithin, AllHold, AllBelow, Live, At, Sizes;
      out := new byte[prefix + n];
      Consume(n, out, prefix);
      assert out[prefix..] == out[prefix..prefix + n];
    }

    method Consume(n: nat, out: array<byte>, prefix: nat)
      requires Valid() && n <= bytes && prefix + n <= out.Length && out !in bufs
      modifies `list, `head, `at, `tail, `parts, `bytes, out
      ensures Valid() && Contents() == old(Contents())[n..] && out[prefix..prefix + n] == old(Contents())[..n]
    {
      hide AllWithin, AllHold, AllBelow, Live, At, Sizes;
      ghost var all := Contents();
      bytes := bytes - n;
      var got := 0;
      while got < n
        invariant 0 <= got <= n <= |all| && Sound() && bytes == |all| - n
        invariant Contents() == all[got..] && out[prefix..prefix + got] == all[..got]
      {
        got := TakeSome(n, got, out, prefix, all);
      }
    }

    /** One piece of a consume: what the front piece has of it. */
    method TakeSome(n: nat, got: nat, out: array<byte>, prefix: nat, ghost all: seq<byte>) returns (more: nat)
      requires got < n <= |all| && Sound() && out !in bufs && prefix + n <= out.Length
      requires Contents() == all[got..] && out[prefix..prefix + got] == all[..got]
      modifies `list, `head, `at, `tail, `parts, out
      ensures got < more <= n && Sound()
      ensures Contents() == all[more..] && out[prefix..prefix + more] == all[..more]
    {
      hide AllWithin, AllHold, AllBelow, Live;
      SomeLive();
      var k := Min(list[head].len - at, n - got);
      Next(head, at, k);
      CopyOut(out, prefix + got, View(list[head].buf, list[head].off + at, k));
      Advance(k);
      more := got + k;
      Cut(out[..], prefix, prefix + got, prefix + more);
      Extend(all, got, k);
    }

    /** Filling the caller's buffer leaves the queue as it was. */
    method CopyOut(out: array<byte>, to: nat, from: View)
      requires Sound() && out !in bufs && from.Within() && from.buf in bufs && to + from.len <= out.Length
      modifies out
      ensures Sound() && out[..to] == old(out[..to]) && out[to..to + from.len] == from.Bytes()
    {
      Copy(out, to, from);
    }

    // ── looking ────────────────────────────────────────────────────────────────────────

    /** A fresh copy of as much of the front as there is. */
    method Peek(n: nat) returns (out: array<byte>)
      requires Valid()
      ensures fresh(out) && Valid() && out[..] == Contents()[..Min(n, bytes)]
    {
      hide AllWithin, AllHold, AllBelow, Live;
      var len := Min(n, bytes);
      out := new byte[len];
      var i, from, off := head, at, 0;
      while off < len
        invariant 0 <= off <= len && Valid() && At(parts, i, from) && fresh(out) && out.Length == len
        invariant Contents()[off..] == Live(parts, i, from) && out[..off] == Contents()[..off]
        decreases len - off
      {
        i, from, off := PeekSome(out, i, from, off);
      }
    }

    method PeekSome(out: array<byte>, i: nat, from: nat, off: nat) returns (i': nat, from': nat, off': nat)
      requires Valid() && At(parts, i, from) && out !in bufs && off < out.Length <= |Contents()|
      requires Contents()[off..] == Live(parts, i, from) && out[..off] == Contents()[..off]
      modifies out
      ensures Valid() && off < off' <= out.Length && At(parts, i', from')
      ensures Contents()[off'..] == Live(parts, i', from') && out[..off'] == Contents()[..off']
    {
      hide AllWithin, AllBelow, AllHold, Live;
      ghost var all := Contents();
      LiveAny(parts, i, from);
      var k := Min(list[i].len - from, out.Length - off);
      Next(i, from, k);
      LiveFront(parts, i, from, k);
      LiveNext(parts, i, from);
      CopyOut(out, off, View(list[i].buf, list[i].off + from, k));
      off' := off + k;
      Cut(out[..], 0, off, off');
      Extend(all, off, k);
      if k == list[i].len - from {
        i', from' := i + 1, 0;
      } else {
        i', from' := i, from + k;
      }
    }

    /** The i-th live byte, or 0 past the end. */
    method ByteAt(i: nat) returns (b: byte)
      requires Valid()
      ensures b == if i < bytes then Contents()[i] else 0
    {
      hide AllWithin, AllBelow, AllHold;
      var left, k := i + at, head;
      while k < |list|
        invariant head <= k <= |list| && left >= 0
        invariant i < bytes <==> left < |Flat(parts[k..])|
        invariant i < bytes ==> Contents()[i] == Flat(parts[k..])[left]
      {
        assert parts[k..][1..] == parts[k + 1..];
        if left < list[k].len {
          b := Octet(k, left);
          return;
        }
        left, k := left - list[k].len, k + 1;
      }
      return 0;
    }

    method Octet(k: nat, j: nat) returns (b: byte)
      requires Sound() && k < |list| && j < list[k].len
      ensures b == parts[k][j]
    {
      assert list[k].Bytes()[j] == parts[k][j];
      return list[k].buf[list[k].off + j];
    }
  }
}

module Fifos {
  import opened Base

  class Fifo<T> {
    /** The entries, those before `head` consumed and cleared. */
    var items: seq<Option<T>>
    var head: nat

    ghost predicate Valid()
      reads this
    {
      head <= |items| && forall i :: head <= i < |items| ==> items[i].Some?
    }

    /** The queue as the plain sequence of its entries, oldest first. */
    ghost function Contents(): seq<T>
      requires Valid()
      reads this
    {
      seq(|items| - head, i requires 0 <= i < |items| - head reads this requires Valid() => items[head + i].value)
    }

    constructor ()
      ensures Valid() && Contents() == []
    {
      items, head := [], 0;
    }

    method Size() returns (n: nat)
      requires Valid()
      ensures n == |Contents()|
    {
      n := |items| - head;
    }

    method Push(v: T)
      requires Valid()
      modifies this
      ensures Valid() && Contents() == old(Contents()) + [v]
    {
      items := items + [Some(v)];
    }

    /** The front, still queued. */
    method Peek() returns (v: Option<T>)
      requires Valid()
      ensures v == if Contents() == [] then None else Some(Contents()[0])
    {
      v := if head < |items| then items[head] else None;
    }

    /** The i-th live entry. */
    method At(i: nat) returns (v: Option<T>)
      requires Valid()
      ensures v == if i < |Contents()| then Some(Contents()[i]) else None
    {
      v := if head + i < |items| then items[head + i] else None;
    }

    method Shift() returns (v: Option<T>)
      requires Valid()
      modifies this
      ensures Valid()
      ensures old(Contents()) == [] ==> v == None && Contents() == []
      ensures old(Contents()) != [] ==> v == Some(old(Contents())[0]) && Contents() == old(Contents())[1..]
    {
      if head >= |items| {
        return None;
      }
      v := items[head];
      Drop(1);
    }

    /** Discard the oldest `n`, clearing their slots, and the slots once they outnumber the
        live entries. */
    method Drop(n: nat)
      requires Valid()
      modifies this
      ensures Valid() && Contents() == old(Contents())[Min(n, |old(Contents())|)..]
    {
      var end := Min(head + n, |items|);
      while head < end
        invariant old(head) <= head <= end <= |items| == |old(items)| && items[end..] == old(items)[end..]
        invariant forall i :: head <= i < |items| ==> items[i] == old(items)[i]
      {
        items := items[head := None];
        head := head + 1;
      }
      if head >= 8 && head * 2 >= |items| {
        items := items[head..];
        head := 0;
      }
    }

    method Clear()
      modifies this
      ensures Valid() && Contents() == []
    {
      items, head := [], 0;
    }
  }
}
