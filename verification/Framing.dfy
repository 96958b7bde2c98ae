/** Link framing (WASM/transport/src/framing.js): length-prefixed messages, and WebSocket frames
    (sections 5.2 to 5.4 of RFC 6455) behind an HTTP upgrade. What each parser makes of a stream
    is a function of its bytes alone: proved here to be the same however the bytes were cut into
    reads, and to undo what the sending side wrote. */
module Framing {
  import opened Base
  import opened Masking

  const HANDSHAKE_CAP: nat := 8 * 1024
  const MAX_HEAD: nat := 16 * 1024

  const CONT: nat := 0
  const BINARY: nat := 2
  const CLOSE: nat := 8
  const PING: nat := 9
  const PONG: nat := 10

  /** What a parser gave out: a message for the link, or a pong to send back. */
  datatype Event = Message(bytes: seq<byte>) | Pong(bytes: seq<byte>)

  /** What lies outside the framers: the cap once raised, whether handling the messages so far
      raises it, and whether a peer's upgrade head is one to accept. */
  datatype Config = Config(max: nat, raises: seq<Event> -> bool, accepts: seq<byte> -> bool)

  /** A message coming in fragments. */
  datatype Frag = Frag(opcode: nat, pieces: seq<seq<byte>>)

  datatype Codec = ByLength | ByServer | ByClient

  datatype State = State(codec: Codec, cap: nat, open: bool, frag: Option<Frag>, out: seq<Event>)

  function Opening(codec: Codec): State { State(codec, HANDSHAKE_CAP, false, None, []) }

  /** The outcome of looking at the bytes buffered: wait for more, refuse, or take some. */
  datatype Outcome = Wait | Refuse | Took(n: nat, next: State)

  function Deliver(cfg: Config, s: State, bytes: seq<byte>): State {
    var out := s.out + [Message(bytes)];
    s.(out := out, cap := if cfg.raises(out) then cfg.max else s.cap)
  }

  // ── length-prefixed ────────────────────────────────────────────────────────────────

  function NextByLength(cfg: Config, s: State, buf: seq<byte>): Outcome {
    if |buf| < 4 then Wait
    else
      var len := U32(buf[..4]);
      if len > s.cap then Refuse
      else if |buf| < 4 + len then Wait
      else Took(4 + len, Deliver(cfg, s, buf[4..4 + len]))
  }

  // ── the upgrade head ───────────────────────────────────────────────────────────────

  predicate EndsHead(buf: seq<byte>, n: nat) {
    4 <= n <= |buf| && buf[n - 4] == 13 && buf[n - 3] == 10 && buf[n - 2] == 13 && buf[n - 1] == 10
  }

  datatype HeadEnd = NotYet | TooLong | EndAt(sep: nat)

  /** The first blank line from the n-th byte on, within the head's own ceiling. */
  function FindHead(buf: seq<byte>, n: nat): (h: HeadEnd)
    decreases |buf| + 1 - n
    ensures h.EndAt? ==> h.sep + 4 <= |buf|
  {
    if n > |buf| then NotYet
    else if n > MAX_HEAD then TooLong
    else if EndsHead(buf, n) then EndAt(n - 4)
    else FindHead(buf, n + 1)
  }

  // ── frames ─────────────────────────────────────────────────────────────────────────

  datatype Header = Short | Bad | Header(fin: bool, opcode: nat, head: nat, len: nat)

  predicate KnownOpcode(opcode: nat) { opcode <= BINARY || CLOSE <= opcode <= PONG }

  /** Section 5.5 of RFC 6455: a control frame is not fragmented and its length fits seven bits;
      section 5.5.1: a close has no body or a status of two bytes. */
  predicate ControlOk(fin: bool, opcode: nat, len: nat) {
    opcode >= CLOSE ==> fin && len <= 125 && !(opcode == CLOSE && len == 1)
  }

  function ReadHeader(buf: seq<byte>, masked: bool, cap: nat): Header {
    if |buf| < 2 then Short
    else
      var b0, b1 := buf[0] as nat, buf[1] as nat;
      var fin, opcode, len7 := b0 >= 128, b0 % 16, b1 % 128;
      if b0 / 16 % 8 != 0 || (b1 >= 128) != masked || !KnownOpcode(opcode) || !ControlOk(fin, opcode, len7) then Bad
      else if len7 == 126 then
        if |buf| < 4 then Short
        else if U16(buf[2..4]) < 126 then Bad
        else Within(fin, opcode, 4, U16(buf[2..4]), masked, cap)
      else if len7 == 127 then
        if |buf| < 10 then Short
        else if U32(buf[2..6]) != 0 || U32(buf[6..10]) < 0x1_0000 then Bad
        else Within(fin, opcode, 10, U32(buf[6..10]), masked, cap)
      else Within(fin, opcode, 2, len7, masked, cap)
  }

  function Within(fin: bool, opcode: nat, head: nat, len: nat, masked: bool, cap: nat): Header {
    if len > cap then Bad else Header(fin, opcode, head + (if masked then 4 else 0), len)
  }

  /** A whole message, or None to refuse the link: a close is where it ends. */
  function Dispatch(cfg: Config, s: State, opcode: nat, payload: seq<byte>): Option<State> {
    if opcode == BINARY then Some(Deliver(cfg, s, payload))
    else if opcode == PING then Some(s.(out := s.out + [Pong(payload)]))
    else if opcode == CLOSE then None
    else Some(s)
  }

  /** Control frames come between a message's fragments; another message may not. */
  function Handle(cfg: Config, s: State, fin: bool, opcode: nat, payload: seq<byte>): Option<State> {
    if opcode == CONT then
      if s.frag.None? || |Flat(s.frag.value.pieces)| + |payload| > s.cap then None
      else
        var pieces := s.frag.value.pieces + [payload];
        if fin then Dispatch(cfg, s.(frag := None), s.frag.value.opcode, Flat(pieces))
        else Some(s.(frag := Some(Frag(s.frag.value.opcode, pieces))))
    else if !fin then
      if s.frag.Some? then None else Some(s.(frag := Some(Frag(opcode, [payload]))))
    else if opcode < CLOSE && s.frag.Some? then None
    else Dispatch(cfg, s, opcode, payload)
  }

  function Payload(h: Header, buf: seq<byte>, masked: bool): seq<byte>
    requires h.Header? && h.head + h.len <= |buf| && (masked ==> h.head >= 4)
  {
    var raw := buf[h.head..h.head + h.len];
    if masked then Mask(raw, buf[h.head - 4..h.head]) else raw
  }

  function NextFrame(cfg: Config, s: State, buf: seq<byte>): Outcome {
    var masked := s.codec.ByServer?;
    var h := ReadHeader(buf, masked, s.cap);
    if h.Bad? then Refuse
    else if h.Short? || |buf| < h.head + h.len then Wait
    else
      var next := Handle(cfg, s, h.fin, h.opcode, Payload(h, buf, masked));
      if next.None? then Refuse else Took(h.head + h.len, next.value)
  }

  function NextHead(cfg: Config, s: State, buf: seq<byte>): Outcome {
    match FindHead(buf, 1)
    case NotYet => Wait
    case TooLong => Refuse
    case EndAt(sep) => if cfg.accepts(buf[..sep]) then Took(sep + 4, s.(open := true)) else Refuse
  }

  function Next(cfg: Config, s: State, buf: seq<byte>): (o: Outcome)
    ensures o.Took? ==> 0 < o.n <= |buf|
  {
    if s.codec.ByLength? then NextByLength(cfg, s, buf)
    else if s.open then NextFrame(cfg, s, buf)
    else NextHead(cfg, s, buf)
  }

  // ── a stream ───────────────────────────────────────────────────────────────────────

  /** A parser on its stream: what is buffered, where in the stream that begins, and whether
      it has refused there, which ends it. */
  datatype Feed = Feed(st: State, buf: seq<byte>, at: nat, refused: bool)

  function Parse(cfg: Config, f: Feed): Feed
    decreases |f.buf|
  {
    if f.refused then f
    else
      match Next(cfg, f.st, f.buf)
      case Wait => f
      case Refuse => f.(buf := [], refused := true)
      case Took(n, next) => Parse(cfg, Feed(next, f.buf[n..], f.at + n, false))
  }

  /** One read. */
  function Push(cfg: Config, f: Feed, chunk: seq<byte>): Feed {
    if f.refused then f else Parse(cfg, f.(buf := f.buf + chunk))
  }

  function PushAll(cfg: Config, f: Feed, chunks: seq<seq<byte>>): Feed
    decreases |chunks|
  {
    if chunks == [] then f else PushAll(cfg, Push(cfg, f, chunks[0]), chunks[1..])
  }

  function Start(codec: Codec): Feed { Feed(Opening(codec), [], 0, false) }

  // ── slicing ────────────────────────────────────────────────────────────────────────

  lemma {:induction false} FindHeadSteady(buf: seq<byte>, more: seq<byte>, n: nat)
    ensures !FindHead(buf, n).NotYet? ==> FindHead(buf + more, n) == FindHead(buf, n)
    decreases |buf| + 1 - n
  {
    if n <= |buf| && n <= MAX_HEAD && !EndsHead(buf, n) { FindHeadSteady(buf, more, n + 1); }
  }

  lemma HeaderSteady(buf: seq<byte>, more: seq<byte>, masked: bool, cap: nat)
    ensures !ReadHeader(buf, masked, cap).Short? ==> ReadHeader(buf + more, masked, cap) == ReadHeader(buf, masked, cap)
    ensures var h := ReadHeader(buf, masked, cap); h.Header? ==> h.head >= 2 && (masked ==> h.head >= 6) && (!h.fin ==> h.opcode < CLOSE)
  {
    hide U16, U32;
    var all := buf + more;
    if |buf| >= 4 { assert all[2..4] == buf[2..4]; }
    if |buf| >= 10 { assert all[2..6] == buf[2..6] && all[6..10] == buf[6..10]; }
  }

  /** What is decided on some bytes is decided the same with more behind them. */
  lemma NextSteady(cfg: Config, s: State, buf: seq<byte>, more: seq<byte>)
    requires !Next(cfg, s, buf).Wait?
    ensures Next(cfg, s, buf + more) == Next(cfg, s, buf)
  {
    hide ReadHeader, Handle, FindHead, Deliver, U32, Mask;
    var all := buf + more;
    if s.codec.ByLength? {
      assert all[..4] == buf[..4];
      var len := U32(buf[..4]);
      if len <= s.cap { assert all[4..4 + len] == buf[4..4 + len]; }
    } else if s.open {
      var masked := s.codec.ByServer?;
      HeaderSteady(buf, more, masked, s.cap);
      var h := ReadHeader(buf, masked, s.cap);
      if h.Header? {
        assert all[h.head..h.head + h.len] == buf[h.head..h.head + h.len];
        if masked { assert all[h.head - 4..h.head] == buf[h.head - 4..h.head]; }
      }
    } else {
      FindHeadSteady(buf, more, 1);
      var h := FindHead(buf, 1);
      if h.EndAt? { assert all[..h.sep] == buf[..h.sep]; }
    }
  }

  lemma {:induction false} ParseSteady(cfg: Config, f: Feed, more: seq<byte>)
    requires !f.refused
    ensures Parse(cfg, f.(buf := f.buf + more)) == Push(cfg, Parse(cfg, f), more)
    decreases |f.buf|
  {
    hide Next;
    var o := Next(cfg, f.st, f.buf);
    if !o.Wait? {
      NextSteady(cfg, f.st, f.buf, more);
      if o.Took? {
        assert (f.buf + more)[o.n..] == f.buf[o.n..] + more;
        ParseSteady(cfg, Feed(o.next, f.buf[o.n..], f.at + o.n, false), more);
      }
    }
  }

  lemma {:induction false} ParseSettles(cfg: Config, f: Feed)
    ensures Parse(cfg, Parse(cfg, f)) == Parse(cfg, f)
    decreases |f.buf|
  {
    hide Next;
    var o := Next(cfg, f.st, f.buf);
    if !f.refused && o.Took? { ParseSettles(cfg, Feed(o.next, f.buf[o.n..], f.at + o.n, false)); }
  }

  lemma PushTwice(cfg: Config, f: Feed, a: seq<byte>, b: seq<byte>)
    ensures Push(cfg, Push(cfg, f, a), b) == Push(cfg, f, a + b)
  {
    hide Next, Parse;
    if !f.refused {
      ParseSteady(cfg, f.(buf := f.buf + a), b);
      assert f.buf + a + b == f.buf + (a + b);
    }
  }

  /** However the bytes were cut into reads, the messages delivered, the pongs answered, what
      waits and the point of refusal are those of reading them all at once. */
  lemma {:induction false} SlicingDoesNotMatter(cfg: Config, f: Feed, chunks: seq<seq<byte>>)
    requires Parse(cfg, f) == f
    decreases |chunks|
    ensures PushAll(cfg, f, chunks) == Push(cfg, f, Flat(chunks))
  {
    hide Parse;
    if chunks == [] {
      assert f.buf + [] == f.buf;
    } else {
      var g := Push(cfg, f, chunks[0]);
      if !f.refused { ParseSettles(cfg, f.(buf := f.buf + chunks[0])); }
      SlicingDoesNotMatter(cfg, g, chunks[1..]);
      PushTwice(cfg, f, chunks[0], Flat(chunks[1..]));
    }
  }

  // ── what was sent is what arrives ──────────────────────────────────────────────────

  function LengthFrame(msg: seq<byte>): seq<byte> { Put32(|msg|) + msg }

  /** A whole frame in the shortest length form (section 5.2), masked under a key if there is one. */
  function LengthField(n: nat): seq<byte> {
    if n < 126 then [] else if n < 0x1_0000 then Put16(n) else Put32(0) + Put32(n)
  }

  function Length7(n: nat): nat { if n < 126 then n else if n < 0x1_0000 then 126 else 127 }

  function FrameHead(opcode: nat, n: nat, key: Option<seq<byte>>): (b: seq<byte>)
    requires opcode < 16 && (key.Some? ==> |key.value| == 4)
  {
    [(0x80 + opcode) as byte, ((if key.Some? then 0x80 else 0) + Length7(n)) as byte]
    + LengthField(n) + (if key.Some? then key.value else [])
  }

  function WsFrame(opcode: nat, payload: seq<byte>, key: Option<seq<byte>>): seq<byte>
    requires opcode < 16 && (key.Some? ==> |key.value| == 4)
  {
    FrameHead(opcode, |payload|, key) + (if key.Some? then Mask(payload, key.value) else payload)
  }

  lemma HeadReads(opcode: nat, n: nat, key: Option<seq<byte>>, rest: seq<byte>, cap: nat)
    requires KnownOpcode(opcode) && ControlOk(true, opcode, n) && n < 0x1_0000_0000
    requires key.Some? ==> |key.value| == 4
    ensures var b := FrameHead(opcode, n, key);
            ReadHeader(b + rest, key.Some?, cap) == if n > cap then Bad else Header(true, opcode, |b|, n)
  {
    hide U16, U32, Put16, Put32;
    var b := FrameHead(opcode, n, key);
    var all := b + rest;
    assert all[0] as nat == 0x80 + opcode && all[1] as nat == (if key.Some? then 0x80 else 0) + Length7(n);
    if 126 <= n < 0x1_0000 {
      assert all[2..4] == Put16(n);
    } else if n >= 0x1_0000 {
      assert all[2..6] == Put32(0) && all[6..10] == Put32(n);
    }
  }

  /** What a stream of `items` is worth to a reader in state `s`, cut off where one is over the
      cap then in force, or ends the link, with how many came before that. */
  datatype Item = Item(opcode: nat, payload: seq<byte>)
  datatype Told = Told(st: State, whole: bool, taken: nat)

  ghost predicate Sendable(i: Item) {
    KnownOpcode(i.opcode) && i.opcode != CONT && ControlOk(true, i.opcode, |i.payload|) && |i.payload| < 0x1_0000_0000
  }

  function Tell(cfg: Config, s: State, items: seq<Item>): (t: Told)
    decreases |items|
    ensures t.taken <= |items| && (t.whole <==> t.taken == |items|)
  {
    if items == [] then Told(s, true, 0)
    else if |items[0].payload| > s.cap then Told(s, false, 0)
    else
      var next := Dispatch(cfg, s, items[0].opcode, items[0].payload);
      if next.None? then Told(s, false, 0)
      else
        var t := Tell(cfg, next.value, items[1..]);
        t.(taken := t.taken + 1)
  }

  predicate KeyOk(key: Option<seq<byte>>) { key.Some? ==> |key.value| == 4 }

  /** Each item framed, under a key of its own when the reader is a server. */
  ghost function WsFrames(items: seq<Item>, keys: seq<Option<seq<byte>>>): seq<byte>
    requires |keys| == |items|
    requires (forall i :: 0 <= i < |items| ==> Sendable(items[i])) && (forall i :: 0 <= i < |keys| ==> KeyOk(keys[i]))
  {
    assert items != [] ==> Sendable(items[0]) && KeyOk(keys[0]);
    if items == [] then []
    else WsFrame(items[0].opcode, items[0].payload, keys[0]) + WsFrames(items[1..], keys[1..])
  }

  ghost predicate KeysFor(codec: Codec, keys: seq<Option<seq<byte>>>) {
    forall i :: 0 <= i < |keys| ==> (keys[i].Some? <==> codec.ByServer?) && KeyOk(keys[i])
  }

  lemma FrameReads(cfg: Config, s: State, i: Item, key: Option<seq<byte>>, rest: seq<byte>)
    requires !s.codec.ByLength? && s.open && s.frag.None? && Sendable(i)
    requires (key.Some? <==> s.codec.ByServer?) && (key.Some? ==> |key.value| == 4)
    ensures var frame := WsFrame(i.opcode, i.payload, key);
            var next := Dispatch(cfg, s, i.opcode, i.payload);
            Next(cfg, s, frame + rest) ==
              if |i.payload| > s.cap || next.None? then Refuse else Took(|frame|, next.value)
  {
    hide ReadHeader, FrameHead, Mask, Dispatch;
    var head := FrameHead(i.opcode, |i.payload|, key);
    var body := if key.Some? then Mask(i.payload, key.value) else i.payload;
    HeadReads(i.opcode, |i.payload|, key, body + rest, s.cap);
    var all := head + body + rest;
    assert all == head + (body + rest);
    assert all[|head|..|head| + |i.payload|] == body;
    if key.Some? {
      KeyLast(i.opcode, |i.payload|, key.value);
      assert all[|head| - 4..|head|] == key.value;
      MaskUndoes(i.payload, key.value);
    }
  }

  lemma KeyLast(opcode: nat, n: nat, key: seq<byte>)
    requires opcode < 16 && |key| == 4
    ensures var h := FrameHead(opcode, n, Some(key)); |h| >= 4 && h[|h| - 4..] == key
  {
  }

  lemma DispatchKeeps(cfg: Config, s: State, i: Item)
    ensures var d := Dispatch(cfg, s, i.opcode, i.payload);
            d.Some? ==> d.value.codec == s.codec && d.value.open == s.open && d.value.frag == s.frag
  {
  }

  lemma WsFramesFront(items: seq<Item>, keys: seq<Option<seq<byte>>>, k: nat)
    requires 0 < k <= |items| == |keys|
    requires (forall i :: 0 <= i < |items| ==> Sendable(items[i])) && (forall i :: 0 <= i < |keys| ==> KeyOk(keys[i]))
    ensures WsFrames(items[..k], keys[..k]) ==
              WsFrame(items[0].opcode, items[0].payload, keys[0]) + WsFrames(items[1..][..k - 1], keys[1..][..k - 1])
  {
    assert items[..k][1..] == items[1..][..k - 1] && keys[..k][1..] == keys[1..][..k - 1];
  }

  /** One frame at the front of an empty buffer is taken whole, and the rest is read on from there. */
  lemma FrontParsed(cfg: Config, f: Feed, i: Item, key: Option<seq<byte>>, rest: seq<byte>)
    requires !f.st.codec.ByLength? && f.st.open && f.st.frag.None? && !f.refused && f.buf == [] && Sendable(i)
    requires (key.Some? <==> f.st.codec.ByServer?) && (key.Some? ==> |key.value| == 4)
    ensures var frame := WsFrame(i.opcode, i.payload, key);
            var next := Dispatch(cfg, f.st, i.opcode, i.payload);
            if |i.payload| > f.st.cap || next.None? then
              Push(cfg, f, frame + rest) == Feed(f.st, [], f.at, true)
            else
              && Push(cfg, f, frame + rest) == Push(cfg, Feed(next.value, [], f.at + |frame|, false), rest)
              && next.value.codec == f.st.codec && next.value.open == f.st.open && next.value.frag == f.st.frag
  {
    hide Next, WsFrame, Dispatch;
    FrameReads(cfg, f.st, i, key, rest);
    DispatchKeeps(cfg, f.st, i);
    var frame := WsFrame(i.opcode, i.payload, key);
    assert f.buf + (frame + rest) == frame + rest;
    assert (frame + rest)[|frame|..] == rest && [] + rest == rest;
  }

  /** What one end frames, masked under any keys, the other parses to the same messages, pings
      and all, up to the first it refuses. */
  lemma {:induction false} WsRoundTrip(cfg: Config, f: Feed, items: seq<Item>, keys: seq<Option<seq<byte>>>)
    requires !f.st.codec.ByLength? && f.st.open && f.st.frag.None? && !f.refused && f.buf == []
    requires |keys| == |items| && KeysFor(f.st.codec, keys)
    requires forall i :: 0 <= i < |items| ==> Sendable(items[i])
    ensures var told := Tell(cfg, f.st, items);
            var g := Push(cfg, f, WsFrames(items, keys));
            g.st == told.st && g.buf == [] && (g.refused <==> !told.whole)
            && g.at == f.at + |WsFrames(items[..told.taken], keys[..told.taken])|
    decreases |items|
  {
    hide Next, WsFrame, Dispatch;
    if items == [] {
      EmptyWaits(cfg, f.st);
      assert f.buf + [] == [];
    } else {
      hide Push;
      var frame, rest := WsFrame(items[0].opcode, items[0].payload, keys[0]), WsFrames(items[1..], keys[1..]);
      FrontParsed(cfg, f, items[0], keys[0], rest);
      var next := Dispatch(cfg, f.st, items[0].opcode, items[0].payload);
      if |items[0].payload| <= f.st.cap && next.Some? {
        WsRoundTrip(cfg, Feed(next.value, [], f.at + |frame|, false), items[1..], keys[1..]);
        WsFramesFront(items, keys, Tell(cfg, f.st, items).taken);
      }
    }
  }

  lemma EmptyWaits(cfg: Config, s: State)
    ensures Next(cfg, s, []).Wait?
  {
  }

  function LengthFrames(msgs: seq<seq<byte>>): seq<byte> {
    if msgs == [] then [] else LengthFrame(msgs[0]) + LengthFrames(msgs[1..])
  }

  function Messages(msgs: seq<seq<byte>>): seq<Item> { seq(|msgs|, i requires 0 <= i < |msgs| => Item(BINARY, msgs[i])) }

  lemma LengthReads(cfg: Config, s: State, msg: seq<byte>, rest: seq<byte>)
    requires s.codec.ByLength? && |msg| < 0x1_0000_0000
    ensures var frame := LengthFrame(msg);
            Next(cfg, s, frame + rest) == if |msg| > s.cap then Refuse else Took(|frame|, Deliver(cfg, s, msg))
  {
    hide Deliver, U32, Put32;
    var all := LengthFrame(msg) + rest;
    assert all[..4] == Put32(|msg|) && all[4..4 + |msg|] == msg;
  }

  lemma {:induction false} LengthRoundTrip(cfg: Config, f: Feed, msgs: seq<seq<byte>>)
    requires f.st.codec.ByLength? && !f.refused && f.buf == []
    requires forall i :: 0 <= i < |msgs| ==> |msgs[i]| < 0x1_0000_0000
    ensures var told := Tell(cfg, f.st, Messages(msgs));
            var g := Push(cfg, f, LengthFrames(msgs));
            g.st == told.st && g.buf == [] && (g.refused <==> !told.whole)
            && g.at == f.at + |LengthFrames(msgs[..told.taken])|
    decreases |msgs|
  {
    hide Next, LengthFrame, Deliver;
    if msgs == [] {
      EmptyWaits(cfg, f.st);
      assert f.buf + [] == [];
    } else {
      var frame, rest := LengthFrame(msgs[0]), LengthFrames(msgs[1..]);
      LengthReads(cfg, f.st, msgs[0], rest);
      TellFront(cfg, f.st, msgs);
      assert f.buf + (frame + rest) == frame + rest;
      if |msgs[0]| <= f.st.cap {
        var next := Deliver(cfg, f.st, msgs[0]);
        var g := Feed(next, [], f.at + |frame|, false);
        DeliverKeeps(cfg, f.st, msgs[0]);
        assert (frame + rest)[|frame|..] == rest && [] + rest == rest;
        LengthRoundTrip(cfg, g, msgs[1..]);
        LengthFront(msgs, Tell(cfg, next, Messages(msgs[1..])).taken + 1);
      }
    }
  }

  lemma DeliverKeeps(cfg: Config, s: State, bytes: seq<byte>)
    ensures Deliver(cfg, s, bytes).codec == s.codec
  {
  }

  lemma TellFront(cfg: Config, s: State, msgs: seq<seq<byte>>)
    requires msgs != []
    ensures var told := Tell(cfg, s, Messages(msgs));
            if |msgs[0]| > s.cap then told == Told(s, false, 0)
            else var t := Tell(cfg, Deliver(cfg, s, msgs[0]), Messages(msgs[1..])); told == t.(taken := t.taken + 1)
  {
    hide Deliver;
    assert Messages(msgs)[1..] == Messages(msgs[1..]);
  }

  lemma LengthFront(msgs: seq<seq<byte>>, k: nat)
    requires 0 < k <= |msgs|
    ensures LengthFrames(msgs[..k]) == LengthFrame(msgs[0]) + LengthFrames(msgs[1..][..k - 1])
  {
    assert msgs[..k][1..] == msgs[1..][..k - 1];
  }

  /** Within the cap, what is told is every message, in order. */
  lemma {:induction false} ToldWhole(cfg: Config, s: State, msgs: seq<seq<byte>>)
    requires cfg.max >= s.cap && forall i :: 0 <= i < |msgs| ==> |msgs[i]| <= s.cap
    ensures var told := Tell(cfg, s, Messages(msgs));
            told.whole && told.st.out == s.out + seq(|msgs|, i requires 0 <= i < |msgs| => Message(msgs[i]))
    decreases |msgs|
  {
    if msgs != [] {
      var next := Deliver(cfg, s, msgs[0]);
      assert Messages(msgs)[1..] == Messages(msgs[1..]);
      ToldWhole(cfg, next, msgs[1..]);
      var all := seq(|msgs|, i requires 0 <= i < |msgs| => Message(msgs[i]));
      assert all == [Message(msgs[0])] + seq(|msgs| - 1, i requires 0 <= i < |msgs| - 1 => Message(msgs[1..][i]));
    }
  }

  /** From one end to the other: however the frames were cut into reads, the reader ends with
      what they tell, and refuses exactly where they are cut off. */
  lemma WsEndToEnd(cfg: Config, f: Feed, items: seq<Item>, keys: seq<Option<seq<byte>>>, chunks: seq<seq<byte>>)
    requires !f.st.codec.ByLength? && f.st.open && f.st.frag.None? && !f.refused && f.buf == []
    requires |keys| == |items| && KeysFor(f.st.codec, keys)
    requires (forall i :: 0 <= i < |items| ==> Sendable(items[i])) && Flat(chunks) == WsFrames(items, keys)
    ensures var told := Tell(cfg, f.st, items);
            var g := PushAll(cfg, f, chunks);
            g.st == told.st && g.buf == [] && (g.refused <==> !told.whole)
            && g.at == f.at + |WsFrames(items[..told.taken], keys[..told.taken])|
  {
    hide Next, WsFrames, Tell, Push, PushAll;
    EmptyWaits(cfg, f.st);
    SlicingDoesNotMatter(cfg, f, chunks);
    WsRoundTrip(cfg, f, items, keys);
  }

  lemma LengthEndToEnd(cfg: Config, msgs: seq<seq<byte>>, chunks: seq<seq<byte>>)
    requires (forall i :: 0 <= i < |msgs| ==> |msgs[i]| < 0x1_0000_0000) && Flat(chunks) == LengthFrames(msgs)
    ensures var told := Tell(cfg, Opening(ByLength), Messages(msgs));
            var g := PushAll(cfg, Start(ByLength), chunks);
            g.st == told.st && g.buf == [] && (g.refused <==> !told.whole)
            && g.at == |LengthFrames(msgs[..told.taken])|
  {
    hide Next, LengthFrames, Tell, Push, PushAll;
    EmptyWaits(cfg, Opening(ByLength));
    SlicingDoesNotMatter(cfg, Start(ByLength), chunks);
    LengthRoundTrip(cfg, Start(ByLength), msgs);
  }

  // ── fragments ──────────────────────────────────────────────────────────────────────

  /** Frames handled one after another. */
  datatype Part = Part(fin: bool, opcode: nat, payload: seq<byte>)

  function HandleAll(cfg: Config, s: State, parts: seq<Part>): Option<State>
    decreases |parts|
  {
    if parts == [] then Some(s)
    else
      var next := Handle(cfg, s, parts[0].fin, parts[0].opcode, parts[0].payload);
      if next.None? then None else HandleAll(cfg, next.value, parts[1..])
  }

  predicate PingOrPong(p: Part) { p.fin && (p.opcode == PING || p.opcode == PONG) }

  /** The rest of a message cut in fragments: control frames anywhere between, the last one fin. */
  predicate Tail(parts: seq<Part>) {
    parts != [] && parts[|parts| - 1].opcode == CONT && parts[|parts| - 1].fin
    && forall i :: 0 <= i < |parts| - 1 ==> PingOrPong(parts[i]) || (parts[i].opcode == CONT && !parts[i].fin)
  }

  function Joined(parts: seq<Part>): seq<byte> {
    if parts == [] then [] else (if parts[0].opcode == CONT then parts[0].payload else []) + Joined(parts[1..])
  }

  function Answers(parts: seq<Part>): seq<Event> {
    if parts == [] then [] else (if parts[0].opcode == PING then [Pong(parts[0].payload)] else []) + Answers(parts[1..])
  }

  ghost predicate Holding(s: State, so: seq<byte>) {
    s.frag.Some? && s.frag.value.opcode == BINARY && Flat(s.frag.value.pieces) == so
  }

  /** A frame that is not the last of its message. */
  lemma MiddlePart(cfg: Config, s: State, so: seq<byte>, p: Part)
    requires Holding(s, so) && (PingOrPong(p) || (p.opcode == CONT && !p.fin))
    ensures var next := Handle(cfg, s, p.fin, p.opcode, p.payload);
            var more := so + Joined([p]);
            (next.None? <==> p.opcode == CONT && |more| > s.cap)
            && (next.Some? ==> Holding(next.value, more) && next.value == s.(frag := next.value.frag, out := s.out + Answers([p])))
  {
    if p.opcode == CONT { FlatSnoc(s.frag.value.pieces, p.payload); }
    PartOne(p);
  }

  lemma LastPart(cfg: Config, s: State, so: seq<byte>, p: Part)
    requires Holding(s, so) && p.opcode == CONT && p.fin
    ensures Handle(cfg, s, p.fin, p.opcode, p.payload) ==
              if |so + p.payload| > s.cap then None else Some(Deliver(cfg, s.(frag := None), so + p.payload))
  {
    FlatSnoc(s.frag.value.pieces, p.payload);
  }

  lemma PartOne(p: Part)
    ensures Joined([p]) == if p.opcode == CONT then p.payload else []
    ensures Answers([p]) == if p.opcode == PING then [Pong(p.payload)] else []
  {
    assert [p][1..] == [];
  }

  lemma PartsFront(parts: seq<Part>)
    requires parts != []
    ensures Joined(parts) == Joined([parts[0]]) + Joined(parts[1..])
    ensures Answers(parts) == Answers([parts[0]]) + Answers(parts[1..])
  {
    PartOne(parts[0]);
  }

  lemma Regroup<T>(a: seq<T>, b: seq<T>, c: seq<T>)
    ensures a + (b + c) == a + b + c
  {
  }

  /** However a message was cut into fragments, and whatever control frames came between, it is
      delivered whole where its last fragment came, or refused where it passed the cap. */
  lemma {:induction false} FragmentsJoin(cfg: Config, s: State, so: seq<byte>, parts: seq<Part>)
    requires Holding(s, so) && |so| <= s.cap && Tail(parts)
    ensures HandleAll(cfg, s, parts) ==
              if |so + Joined(parts)| > s.cap then None
              else Some(Deliver(cfg, s.(frag := None, out := s.out + Answers(parts)), so + Joined(parts)))
    decreases |parts|
  {
    hide Deliver, Handle, Holding, Joined, Answers;
    var p := parts[0];
    PartsFront(parts);
    PartOne(p);
    Regroup(so, Joined([p]), Joined(parts[1..]));
    Regroup(s.out, Answers([p]), Answers(parts[1..]));
    if |parts| == 1 {
      LastPart(cfg, s, so, p);
      assert parts == [p];
      assert s.(out := s.out + []) == s;
    } else {
      MiddlePart(cfg, s, so, p);
      var next := Handle(cfg, s, p.fin, p.opcode, p.payload);
      var more := so + Joined([p]);
      if next.Some? {
        assert parts[1..][|parts| - 2] == parts[|parts| - 1];
        FragmentsJoin(cfg, next.value, more, parts[1..]);
      }
    }
  }
}
