/** The framers as the objects they are (WASM/transport/src/framing.js:13-54, 92-107, 139-331), over
    a `Pieces` queue and a rolling scan for the end of the upgrade head: proved to make of each
    read what Framing's functions make of it. What a call into `ws.wasm` answers is
    Masking's function of the frame. */
module Framers {
  import opened Base
  import opened Masking
  import opened ByteQueue
  import opened Framing

  const MERGE_BELOW: nat := 8 * 1024

  /** A byte of the front of a queue, which holds it. */
  lemma FrontU32(buf: seq<byte>, i: nat)
    requires i + 4 <= |buf|
    ensures U32(buf[i..i + 4]) == 0x100_0000 * buf[i] as nat + 0x1_0000 * buf[i + 1] as nat + 0x100 * buf[i + 2] as nat + buf[i + 3] as nat
  {
    assert buf[i..i + 4][..2] == [buf[i], buf[i + 1]] && buf[i..i + 4][2..] == [buf[i + 2], buf[i + 3]];
  }

  method ReadU32(parts: Pieces, i: nat) returns (n: nat)
    requires parts.Valid() && i + 4 <= parts.bytes
    ensures n == U32(parts.Contents()[i..i + 4])
  {
    var b0 := parts.ByteAt(i);
    var b1 := parts.ByteAt(i + 1);
    var b2 := parts.ByteAt(i + 2);
    var b3 := parts.ByteAt(i + 3);
    n := 0x100_0000 * b0 as nat + 0x1_0000 * b1 as nat + 0x100 * b2 as nat + b3 as nat;
    FrontU32(parts.Contents(), i);
  }

  class LengthFramer {
    const cfg: Config
    var parts: Pieces
    var cap: nat
    /** What was delivered, whether it refused, and how much of the stream was taken. */
    var out: seq<Event>
    var refused: bool
    ghost var at: nat

    ghost predicate Valid()
      reads this, parts, parts.bufs
    {
      parts.Valid() && !refused
    }

    ghost function Feed(): Framing.Feed
      requires parts.Shape()
      reads this, parts
    {
      Framing.Feed(State(ByLength, cap, false, None, out), if refused then [] else parts.Contents(), at, refused)
    }

    constructor (cfg: Config)
      ensures Valid() && Feed() == Start(ByLength) && this.cfg == cfg && fresh(parts) && fresh(parts.bufs)
    {
      this.cfg := cfg;
      parts := new Pieces(MERGE_BELOW);
      cap, out, refused, at := HANDSHAKE_CAP, [], false, 0;
    }

    /** One message as its frame. */
    static method Frame(msg: View) returns (out: array<byte>)
      requires msg.Within()
      ensures fresh(out) && (out[..] == LengthFrame(msg.Bytes()))
    {
      out := new byte[4 + msg.len];
      var head := Put32(msg.len);
      out[0], out[1], out[2], out[3] := head[0], head[1], head[2], head[3];
      Copy(out, 4, msg);
      assert out[..4] == head;
      assert out[..] == out[..4] + out[4..4 + msg.len];
    }

    /** One read, any slice of the stream; the answer is whether the stream is still good. */
    method Push(chunk: View) returns (ok: bool)
      requires Valid() && chunk.Within() && (parts.Owns() ==> chunk.Below(parts.list[parts.tail]))
      modifies this, parts, if parts.Owns() then {parts.list[parts.tail].buf} else {}
      ensures parts == old(parts) && parts.Valid() && ok == !refused
      ensures Feed() == Framing.Push(cfg, old(Feed()), old(chunk.Bytes()))
    {
      hide Parse;
      parts.Push(chunk);
      ok := ParseAll();
    }

    method ParseAll() returns (ok: bool)
      requires Valid()
      modifies this, parts
      ensures parts == old(parts) && parts.Valid() && ok == !refused
      ensures Feed() == Parse(cfg, old(Feed()))
    {
      hide Next;
      ok := true;
      while ok
        invariant parts == old(parts) && parts.Valid() && ok == !refused
        invariant Parse(cfg, Feed()) == Parse(cfg, old(Feed()))
        decreases ok, parts.bytes
      {
        ghost var f := Feed();
        var more := Step();
        if refused {
          ok := false;
        } else if !more {
          return true;
        }
      }
    }

    /** One turn of the loop: whether to go on. */
    method Step() returns (more: bool)
      requires Valid()
      modifies this, parts
      ensures parts == old(parts) && parts.Valid()
      ensures match Next(cfg, old(Feed()).st, old(Feed()).buf)
              case Wait => !more && Feed() == old(Feed())
              case Refuse => refused && Feed() == old(Feed()).(buf := [], refused := true)
              case Took(n, next) =>
                more && n > 0 && Feed() == Framing.Feed(next, old(Feed()).buf[n..], old(Feed()).at + n, false)
    {
      hide Live, U32, AllWithin, Sizes, AllHold, AllBelow, At;
      ghost var buf := parts.Contents();
      if parts.bytes < 4 {
        return false;
      }
      var len := ReadU32(parts, 0);
      assert buf[0..4] == buf[..4];
      if len > cap {
        refused := true;
        return false;
      }
      if parts.bytes < 4 + len {
        return false;
      }
      TakeMessage(len);
      return true;
    }

    /** A whole frame off the queue, and its message delivered. */
    method TakeMessage(len: nat)
      requires Valid() && 4 + len <= parts.bytes
      modifies this, parts
      ensures parts == old(parts) && parts.Valid() && !refused && at == old(at) + 4 + len
      ensures parts.Contents() == old(parts.Contents())[4 + len..]
      ensures Feed().st == Deliver(cfg, old(Feed()).st, old(parts.Contents())[4..4 + len])
    {
      hide Live, AllWithin, Sizes, AllHold, AllBelow, At;
      ghost var buf := parts.Contents();
      var head := parts.Take(4);
      var msg := parts.TakeCopy(len, 0);
      assert msg[..] == msg[0..] == buf[4..][..len] == buf[4..4 + len];
      assert buf[4..][len..] == buf[4 + len..];
      out := out + [Message(msg[..])];
      if cfg.raises(out) {
        cap := cfg.max;
      }
      at := at + 4 + len;
    }
  }

  // ── WebSocket ──────────────────────────────────────────────────────────────────────

  /** A header and its payload, behind `at` free bytes. */
  method Lay(first: seq<byte>, at: nat, payload: View) returns (out: array<byte>)
    requires payload.Within()
    ensures fresh(out) && out.Length == at + |first| + payload.len && out[at..] == first + payload.Bytes()
  {
    var head := |first|;
    out := new byte[at + head + payload.len];
    forall i | 0 <= i < head {
      out[at + i] := first[i];
    }
    assert out[..at + head][at..] == first;
    Copy(out, at + head, payload);
    assert out[at..at + head] == out[..at + head][at..];
    assert out[at..] == out[at..at + head] + out[at + head..at + head + payload.len];
  }

  /** A frame to send; with a key, the request `[op][frame]` that has its payload still clear,
      which `ws.wasm` answers with the frame. */
  method WsFrameBytes(opcode: nat, payload: View, key: Option<seq<byte>>) returns (out: array<byte>)
    requires opcode < 16 && KeyOk(key) && payload.Within() && payload.len < 0x1_0000_0000
    ensures fresh(out)
    ensures key.None? ==> out[..] == WsFrame(opcode, payload.Bytes(), key)
    ensures key.Some? ==> out.Length > 0 && out[0] == 1 && MaskFrame(out[1..]) == Some(WsFrame(opcode, payload.Bytes(), key))
  {
    hide Put16, Put32;
    var n := payload.len;
    var ext := if n < 126 then 0 else if n < 0x1_0000 then 2 else 8;
    var at := if key.Some? then 1 else 0;
    assert |FrameHead(opcode, n, key)| == 2 + ext + if key.Some? then 4 else 0;
    out := Lay(FrameHead(opcode, n, key), at, payload);
    if key.None? {
      assert out[..] == out[at..];
      return;
    }
    out[0] := 1;
    ClearFrameMasks(opcode, payload.Bytes(), key.value);
  }

  lemma ClearFrameMasks(opcode: nat, payload: seq<byte>, key: seq<byte>)
    requires opcode < 16 && |key| == 4
    ensures MaskFrame(FrameHead(opcode, |payload|, Some(key)) + payload) == Some(WsFrame(opcode, payload, Some(key)))
  {
    hide Mask, Put16, Put32;
    var head := FrameHead(opcode, |payload|, Some(key));
    var frame := head + payload;
    KeyLast(opcode, |payload|, key);
    assert frame[1] == head[1] && KeyedHead(frame[1]) == |head|;
    assert frame[|head|..] == payload && frame[..|head|] == head && frame[|head| - 4..|head|] == key;
  }

  /** What the wasm module answers of a frame whose header was read. */
  lemma UnmasksPayload(buf: seq<byte>, cap: nat)
    requires var h := ReadHeader(buf, true, cap); h.Header? && h.head + h.len <= |buf|
    ensures var h := ReadHeader(buf, true, cap);
            var frame := buf[..h.head + h.len];
            && h.head >= 6 && MaskFrame(frame).Some? && |MaskFrame(frame).value| >= h.head
            && MaskFrame(frame).value[h.head..] == Payload(h, buf, true)
  {
    hide Mask, U16, U32;
    var h := ReadHeader(buf, true, cap);
    var frame := buf[..h.head + h.len];
    assert frame[1] == buf[1] && KeyedHead(frame[1]) == h.head;
    assert frame[h.head..] == buf[h.head..h.head + h.len] && frame[h.head - 4..h.head] == buf[h.head - 4..h.head];
  }

  /** The last four bytes of a stream's first `n`, -1 before it began. */
  function LastBut(all: seq<byte>, n: nat, k: nat): int
    requires n <= |all|
  {
    if n > k then all[n - 1 - k] as int else -1
  }

  lemma Begun(buf: seq<byte>, more: seq<byte>)
    ensures FindHead(buf + more, |buf + more| + 1).NotYet?
    ensures forall k: nat :: LastBut(buf + more, |buf|, k) == LastBut(buf, |buf|, k)
  {
  }

  /** Reading one more byte moves the last four on, and they are what ends a head. */
  lemma LastMoves(all: seq<byte>, n: nat)
    requires n < |all|
    ensures LastBut(all, n + 1, 0) == all[n] as int && forall k: nat :: LastBut(all, n + 1, k + 1) == LastBut(all, n, k)
    ensures EndsHead(all, n + 1) <==>
              LastBut(all, n + 1, 3) == 13 && LastBut(all, n + 1, 2) == 10 && LastBut(all, n + 1, 1) == 13 && LastBut(all, n + 1, 0) == 10
    ensures FindHead(all, n + 1) ==
              if n + 1 > MAX_HEAD then TooLong else if EndsHead(all, n + 1) then EndAt(n - 3) else FindHead(all, n + 2)
  {
  }

  lemma {:induction false} FindHeadOn(buf: seq<byte>, more: seq<byte>, n: nat)
    requires FindHead(buf, n).NotYet? && n <= |buf| + 1
    ensures FindHead(buf + more, n) == FindHead(buf + more, |buf| + 1) && |buf| <= Max(n, MAX_HEAD + 1) && (n <= |buf| ==> |buf| <= MAX_HEAD)
    decreases |buf| + 1 - n
  {
    if n <= |buf| { FindHeadOn(buf, more, n + 1); }
  }

  lemma ParseHead(cfg: Config, f: Framing.Feed)
    requires !f.refused && !f.st.codec.ByLength? && !f.st.open
    ensures match FindHead(f.buf, 1)
            case NotYet => Parse(cfg, f) == f
            case TooLong => Parse(cfg, f) == f.(buf := [], refused := true)
            case EndAt(sep) =>
              Parse(cfg, f) == if cfg.accepts(f.buf[..sep])
                               then Parse(cfg, Framing.Feed(f.st.(open := true), f.buf[sep + 4..], f.at + sep + 4, false))
                               else f.(buf := [], refused := true)
  {
    hide FindHead;
  }

  class WsFramer {
    const cfg: Config
    const client: bool
    var cap: nat
    var parts: Pieces
    var open: bool
    /** Rolling scan state for the head's end. */
    var headLen: nat
    var h0: int
    var h1: int
    var h2: int
    var h3: int
    var fragOpcode: int
    var frags: seq<seq<byte>>
    var fragBytes: nat
    var out: seq<Event>
    var refused: bool
    ghost var at: nat

    ghost function St(): State
      reads this
    {
      State(if client then ByClient else ByServer, cap, open, if fragOpcode < 0 then None else Some(Frag(fragOpcode, frags)), out)
    }

    ghost function Feed(): Framing.Feed
      requires parts.Shape()
      reads this, parts
    {
      Framing.Feed(St(), if refused then [] else parts.Contents(), at, refused)
    }

    ghost predicate Scanned(all: seq<byte>)
      reads this
    {
      && headLen == |all| && h3 == LastBut(all, headLen, 0) && h2 == LastBut(all, headLen, 1)
      && h1 == LastBut(all, headLen, 2) && h0 == LastBut(all, headLen, 3)
    }

    ghost predicate FragsOk()
      reads this
    {
      -1 <= fragOpcode < CLOSE && fragBytes == |Flat(frags)|
    }

    ghost predicate Valid()
      reads this, parts, parts.bufs
    {
      parts.Valid() && !refused && FragsOk()
      && (!open ==> Scanned(parts.Contents()) && FindHead(parts.Contents(), 1).NotYet?)
    }

    constructor (cfg: Config, client: bool)
      ensures Valid() && Feed() == Start(if client then ByClient else ByServer)
      ensures this.cfg == cfg && this.client == client && fresh(parts) && fresh(parts.bufs)
    {
      this.cfg, this.client := cfg, client;
      cap, open, out, refused, at := HANDSHAKE_CAP, false, [], false, 0;
      headLen, h0, h1, h2, h3 := 0, -1, -1, -1, -1;
      fragOpcode, frags, fragBytes := -1, [], 0;
      parts := new Pieces(MERGE_BELOW);
    }

    /** One chunk in; false refuses the link. */
    method Push(chunk: View) returns (ok: bool)
      requires Valid() && chunk.Within() && (parts.Owns() ==> chunk.Below(parts.list[parts.tail]))
      modifies this, parts, if parts.Owns() then {parts.list[parts.tail].buf} else {}
      ensures parts == old(parts) && parts.Valid() && ok == !refused && (ok ==> Valid())
      ensures Feed() == Framing.Push(cfg, old(Feed()), old(chunk.Bytes()))
    {
      hide Parse, NextFrame, FindHead, LastBut, Live, At, Sizes, AllWithin, AllBelow, AllHold, View.Below;
      if open {
        parts.Push(chunk);
        ok := ParseFrames();
      } else {
        ok := PushHead(chunk);
      }
    }

    method PushHead(chunk: View) returns (ok: bool)
      requires Valid() && !open && chunk.Within() && (parts.Owns() ==> chunk.Below(parts.list[parts.tail]))
      modifies this, parts, if parts.Owns() then {parts.list[parts.tail].buf} else {}
      ensures parts == old(parts) && parts.Valid() && ok == !refused && (ok ==> Valid())
      ensures Feed() == Parse(cfg, old(Feed().(buf := Feed().buf + chunk.Bytes())))
    {
      hide Parse, NextFrame, FindHead, LastBut, Live, At, Sizes, AllWithin, AllBelow, AllHold, View.Below;
      ghost var f := Feed().(buf := Feed().buf + chunk.Bytes());
      var sep := ScanHead(chunk);
      ParseHead(cfg, f);
      if sep == -2 {
        refused := true;
        return false;
      }
      parts.Push(chunk);
      if sep < 0 {
        return true;
      }
      var accepted := Upgrade(sep);
      if !accepted {
        refused := true;
        return false;
      }
      ok := ParseFrames();
    }

    /** Extend the scan over one chunk: where the head ends, -1 if not yet, or -2 past its
        ceiling. */
    method ScanHead(chunk: View) returns (found: int)
      requires Valid() && !open && chunk.Within()
      modifies `h0, `h1, `h2, `h3, `headLen
      ensures var all := parts.Contents() + chunk.Bytes();
              match FindHead(all, 1)
              case NotYet => found == -1 && Scanned(all)
              case TooLong => found == -2
              case EndAt(sep) => found == sep
    {
      hide Live, At, Sizes, AllWithin, AllBelow, AllHold, FindHead, EndsHead, LastBut;
      ghost var all := parts.Contents() + chunk.Bytes();
      Begun(parts.Contents(), chunk.Bytes());
      FindHeadOn(parts.Contents(), chunk.Bytes(), 1);
      var i := 0;
      while i < chunk.len
        invariant 0 <= i <= chunk.len && headLen == |parts.Contents()| + i
        invariant h3 == LastBut(all, headLen, 0) && h2 == LastBut(all, headLen, 1)
        invariant h1 == LastBut(all, headLen, 2) && h0 == LastBut(all, headLen, 3)
        invariant FindHead(all, 1) == FindHead(all, headLen + 1)
      {
        assert all[headLen] == chunk.Bytes()[i] == chunk.buf[chunk.off + i];
        LastMoves(all, headLen);
        h0, h1, h2, h3 := h1, h2, h3, chunk.buf[chunk.off + i] as int;
        headLen := headLen + 1;
        var matched := h0 == 13 && h1 == 10 && h2 == 13 && h3 == 10;
        if matched || headLen > MAX_HEAD {
          found := if matched && headLen <= MAX_HEAD then headLen - 4 else -2;
          return;
        }
        i := i + 1;
      }
      return -1;
    }

    /** Past the head: on acceptance what follows it is the first frame's. */
    method Upgrade(sep: nat) returns (accepted: bool)
      requires parts.Valid() && sep + 4 <= parts.bytes && !refused && FragsOk()
      modifies this, parts
      ensures parts == old(parts) && parts.Valid() && accepted == cfg.accepts(old(parts.Contents())[..sep])
      ensures !accepted ==> St() == old(St()) && at == old(at) && !refused
      ensures accepted ==> Valid() && open
      ensures accepted ==> Feed() == Framing.Feed(old(St()).(open := true), old(parts.Contents())[sep + 4..], old(at) + sep + 4, false)
    {
      hide Live, At, Sizes, AllWithin, AllBelow, AllHold, FindHead;
      var head := parts.Peek(sep);
      accepted := cfg.accepts(head[..]);
      if accepted {
        var taken := parts.Take(sep + 4);
        open := true;
        at := at + sep + 4;
      }
    }

    /** Parse whatever frames are complete. */
    method ParseFrames() returns (ok: bool)
      requires Valid() && open
      modifies this, parts
      ensures parts == old(parts) && parts.Valid() && ok == !refused && (ok ==> Valid())
      ensures Feed() == Parse(cfg, old(Feed()))
    {
      hide NextFrame, NextHead, NextByLength, FindHead, Live, At, Sizes, AllWithin, AllBelow, AllHold;
      ok := true;
      while ok
        invariant parts == old(parts) && parts.Valid() && ok == !refused && (ok ==> Valid() && open)
        invariant Parse(cfg, Feed()) == Parse(cfg, old(Feed()))
        decreases ok, parts.bytes
      {
        var more := Step();
        if refused {
          ok := false;
        } else if !more {
          return true;
        }
      }
    }

    /** One turn of the loop: whether to go on. */
    method Step() returns (more: bool)
      requires Valid() && open
      modifies this, parts
      ensures parts == old(parts) && parts.Valid() && (!refused ==> Valid() && open)
      ensures match NextFrame(cfg, old(St()), old(parts.Contents()))
              case Wait => !more && Feed() == old(Feed())
              case Refuse => refused && Feed() == old(Feed()).(buf := [], refused := true)
              case Took(n, next) =>
                more && n > 0 && Feed() == Framing.Feed(next, old(parts.Contents())[n..], old(at) + n, false)
    {
      hide Live, At, Sizes, AllWithin, AllBelow, AllHold, ReadHeader, Handle, MaskFrame, FindHead;
      var h := WsHead();
      if h.Bad? {
        refused := true;
        return false;
      }
      if h.Short? || parts.bytes < h.head + h.len {
        return false;
      }
      HeaderSteady(parts.Contents(), [], !client, cap);
      var payload := TakePayload(h);
      var ok := HandleFrame(h.fin, h.opcode, payload);
      if !ok {
        refused := true;
        return false;
      }
      at := at + h.head + h.len;
      return true;
    }

    /** Byte by byte off the queue, this is ReadHeader of its contents. */
    method WsHead() returns (h: Header)
      requires parts.Valid()
      ensures h == ReadHeader(parts.Contents(), !client, cap)
    {
      hide Live, At, Sizes, AllWithin, AllBelow, AllHold, U32, U16;
      if parts.bytes < 2 {
        return Short;
      }
      var b0 := parts.ByteAt(0);
      var b1 := parts.ByteAt(1);
      var fin, opcode, len7 := b0 >= 128, b0 as nat % 16, b1 as nat % 128;
      if b0 as nat / 16 % 8 != 0 || (b1 >= 128) != !client {
        return Bad;
      }
      if opcode > BINARY && (opcode < CLOSE || opcode > PONG) {
        return Bad;
      }
      if opcode >= CLOSE && (!fin || len7 > 125 || (opcode == CLOSE && len7 == 1)) {
        return Bad;
      }
      if len7 < 126 {
        return Within(fin, opcode, 2, len7, !client, cap);
      }
      if parts.bytes < (if len7 == 126 then 4 else 10) {
        return Short;
      }
      h := ExtendedHead(fin, opcode, len7);
    }

    method ExtendedHead(fin: bool, opcode: nat, len7: nat) returns (h: Header)
      requires parts.Valid() && 126 <= len7 <= 127 && parts.bytes >= if len7 == 126 then 4 else 10
      ensures var buf := parts.Contents();
              h == if len7 == 126
                   then if U16(buf[2..4]) < 126 then Bad else Within(fin, opcode, 4, U16(buf[2..4]), !client, cap)
                   else if U32(buf[2..6]) != 0 || U32(buf[6..10]) < 0x1_0000 then Bad
                   else Within(fin, opcode, 10, U32(buf[6..10]), !client, cap)
    {
      hide Live, At, Sizes, AllWithin, AllBelow, AllHold, U32, Within;
      if len7 == 126 {
        var b2 := parts.ByteAt(2);
        var b3 := parts.ByteAt(3);
        var len := 256 * b2 as nat + b3 as nat;
        assert parts.Contents()[2..4] == [b2, b3];
        return if len < 126 then Bad else Within(fin, opcode, 4, len, !client, cap);
      }
      var high := ReadU32(parts, 2);
      var low := ReadU32(parts, 6);
      return if high != 0 || low < 0x1_0000 then Bad else Within(fin, opcode, 10, low, !client, cap);
    }

    /** A frame off the queue, and its payload: unmasked by the wasm module for a server. */
    method TakePayload(h: Header) returns (payload: seq<byte>)
      requires Valid() && open && h == ReadHeader(parts.Contents(), !client, cap)
      requires h.Header? && h.head + h.len <= parts.bytes && (!client ==> h.head >= 4)
      modifies parts
      ensures parts.Valid() && parts.Contents() == old(parts.Contents())[h.head + h.len..]
      ensures payload == Payload(h, old(parts.Contents()), !client)
    {
      hide Live, At, Sizes, AllWithin, AllBelow, AllHold, ReadHeader, MaskFrame, FindHead, Mask;
      ghost var buf := parts.Contents();
      if client {
        var head := parts.Take(h.head);
        var body := parts.TakeCopy(h.len, 0);
        assert body[..] == body[0..] == buf[h.head..][..h.len] == buf[h.head..h.head + h.len];
        assert buf[h.head..][h.len..] == buf[h.head + h.len..];
        return body[..];
      }
      var req := parts.TakeCopy(h.head + h.len, 1);
      req[0] := 1;
      assert req[1..] == buf[..h.head + h.len];
      UnmasksPayload(buf, cap);
      var answer := MaskFrame(req[1..]);
      return answer.value[h.head..];
    }

    /** A frame's place in its message; false refuses it. */
    method HandleFrame(fin: bool, opcode: nat, payload: seq<byte>) returns (ok: bool)
      requires FragsOk() && (!fin ==> opcode < CLOSE)
      modifies `cap, `fragOpcode, `frags, `fragBytes, `out
      ensures FragsOk() && (!ok ==> St() == old(St()))
      ensures var next := Handle(cfg, old(St()), fin, opcode, payload); ok == next.Some? && (ok ==> St() == next.value)
    {
      hide Dispatch;
      FlatSnoc(frags, payload);
      if opcode == CONT {
        if fragOpcode < 0 || fragBytes + |payload| > cap {
          return false;
        }
        fragBytes := fragBytes + |payload|;
        frags := frags + [payload];
        if fin {
          var msg, first := Flat(frags), fragOpcode;
          fragOpcode, frags, fragBytes := -1, [], 0;
          ok := DispatchFrame(first, msg);
          return;
        }
      } else if !fin {
        if fragOpcode >= 0 {
          return false;
        }
        fragOpcode, frags, fragBytes := opcode, [payload], |payload|;
        assert Flat([payload]) == payload;
      } else {
        if opcode < CLOSE && fragOpcode >= 0 {
          return false;
        }
        ok := DispatchFrame(opcode, payload);
        return;
      }
      return true;
    }

    method DispatchFrame(opcode: nat, payload: seq<byte>) returns (ok: bool)
      modifies `cap, `out
      ensures var next := Dispatch(cfg, old(St()), opcode, payload); ok == next.Some? && (ok ==> St() == next.value)
      ensures !ok ==> opcode == CLOSE && St() == old(St())
    {
      if opcode == BINARY {
        out := out + [Message(payload)];
        if cfg.raises(out) {
          cap := cfg.max;
        }
      } else if opcode == PING {
        out := out + [Pong(payload)];
      } else if opcode == CLOSE {
        return false;
      }
      return true;
    }
  }
}
