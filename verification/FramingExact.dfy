/** What the framers take and refuse, told by the bytes themselves
    (WASM/transport/src/framing.js:14-52, 131-155, 280-380): the cap in force, the frames a header
    can be, and the order frames may come in. */
module FramingExact {
  import opened Base
  import opened Masking
  import opened Framing

  // ── the cap ──────────────────────────────────────────────────────────────────────────

  /** Some message so far, when it was given out, raised the cap. */
  ghost predicate Raised(cfg: Config, out: seq<Event>) {
    exists k :: 0 < k <= |out| && out[k - 1].Message? && cfg.raises(out[..k])
  }

  /** The cap after this much was given out. */
  ghost function CapAfter(cfg: Config, out: seq<Event>): nat { if Raised(cfg, out) then cfg.max else 8192 }

  ghost predicate CapRight(cfg: Config, s: State) { s.cap == CapAfter(cfg, s.out) }

  lemma RaisedOn(cfg: Config, out: seq<Event>, ev: Event)
    ensures Raised(cfg, out + [ev]) <==> Raised(cfg, out) || (ev.Message? && cfg.raises(out + [ev]))
  {
    var all := out + [ev];
    assert all[..|all|] == all;
    forall k | 0 < k <= |out| ensures all[..k] == out[..k] && all[k - 1] == out[k - 1] {}
    if Raised(cfg, out) {
      var k :| 0 < k <= |out| && out[k - 1].Message? && cfg.raises(out[..k]);
      assert all[k - 1].Message? && cfg.raises(all[..k]);
    }
    if ev.Message? && cfg.raises(all) { assert all[|all| - 1].Message?; }
  }

  lemma DeliverRight(cfg: Config, s: State, bytes: seq<byte>)
    requires CapRight(cfg, s)
    ensures CapRight(cfg, Deliver(cfg, s, bytes))
  {
    RaisedOn(cfg, s.out, Message(bytes));
  }

  lemma DispatchRight(cfg: Config, s: State, opcode: nat, payload: seq<byte>)
    requires CapRight(cfg, s)
    ensures var d := Dispatch(cfg, s, opcode, payload); d.Some? ==> CapRight(cfg, d.value)
  {
    DeliverRight(cfg, s, payload);
    RaisedOn(cfg, s.out, Pong(payload));
  }

  lemma NextRight(cfg: Config, s: State, buf: seq<byte>)
    requires CapRight(cfg, s)
    ensures var o := Next(cfg, s, buf); o.Took? ==> CapRight(cfg, o.next)
  {
    hide CapRight, Deliver, Dispatch, ReadHeader, FindHead, Mask, U32;
    if s.codec.ByLength? {
      if |buf| >= 4 && |buf| >= 4 + U32(buf[..4]) { DeliverRight(cfg, s, buf[4..4 + U32(buf[..4])]); }
    } else if s.open {
      var h := ReadHeader(buf, s.codec.ByServer?, s.cap);
      if h.Header? && |buf| >= h.head + h.len {
        HeaderSteady(buf, [], s.codec.ByServer?, s.cap);
        HandleRight(cfg, s, h.fin, h.opcode, Payload(h, buf, s.codec.ByServer?));
      }
    } else {
      RightBut(cfg, s, s.(open := true));
    }
  }

  lemma RightBut(cfg: Config, s: State, t: State)
    requires CapRight(cfg, s) && t == s.(open := t.open, frag := t.frag)
    ensures CapRight(cfg, t)
  {
  }

  lemma HandleRight(cfg: Config, s: State, fin: bool, opcode: nat, payload: seq<byte>)
    requires CapRight(cfg, s)
    ensures var d := Handle(cfg, s, fin, opcode, payload); d.Some? ==> CapRight(cfg, d.value)
  {
    hide CapRight, Dispatch, Flat;
    RightBut(cfg, s, s.(frag := None));
    DispatchRight(cfg, s, opcode, payload);
    if s.frag.Some? {
      var pieces := s.frag.value.pieces + [payload];
      RightBut(cfg, s, s.(frag := Some(Frag(s.frag.value.opcode, pieces))));
      DispatchRight(cfg, s.(frag := None), s.frag.value.opcode, Flat(pieces));
    }
    RightBut(cfg, s, s.(frag := Some(Frag(opcode, [payload]))));
  }

  lemma {:induction false} ParseRight(cfg: Config, f: Feed)
    requires CapRight(cfg, f.st)
    ensures CapRight(cfg, Parse(cfg, f).st)
    decreases |f.buf|
  {
    hide CapRight, Next;
    if !f.refused {
      NextRight(cfg, f.st, f.buf);
      var o := Next(cfg, f.st, f.buf);
      if o.Took? { ParseRight(cfg, Feed(o.next, f.buf[o.n..], f.at + o.n, false)); }
    }
  }

  /** Over any reads, in either codec: the cap is the handshake's until a message given out raises
      it, and the link's from there on. */
  lemma {:induction false} CapAlways(cfg: Config, f: Feed, chunks: seq<seq<byte>>)
    requires CapRight(cfg, f.st)
    ensures CapRight(cfg, PushAll(cfg, f, chunks).st)
    decreases |chunks|
  {
    hide CapRight, Parse;
    if chunks != [] {
      ParseRight(cfg, f.(buf := f.buf + chunks[0]));
      CapAlways(cfg, Push(cfg, f, chunks[0]), chunks[1..]);
    }
  }

  lemma StartRight(cfg: Config, codec: Codec)
    ensures CapRight(cfg, Start(codec).st)
  {
  }

  // ── what is given out ────────────────────────────────────────────────────────────────

  /** What whole messages and control frames come to. */
  function Given(items: seq<Item>): seq<Event> {
    if items == [] then []
    else
      var last := items[|items| - 1];
      Given(items[..|items| - 1])
      + (if last.opcode == 2 then [Message(last.payload)] else if last.opcode == 9 then [Pong(last.payload)] else [])
  }

  /** The i-th is within the cap in force once those before it were given out, and no close. */
  ghost predicate Fits(cfg: Config, out: seq<Event>, items: seq<Item>, i: nat)
    requires i < |items|
  {
    |items[i].payload| <= CapAfter(cfg, out + Given(items[..i])) && items[i].opcode != 8
  }

  /** All before the k-th fit, and the k-th does not, if there is one. */
  ghost predicate UpTo(cfg: Config, out: seq<Event>, items: seq<Item>, k: nat) {
    k <= |items| && (forall i :: 0 <= i < k ==> Fits(cfg, out, items, i)) && (k < |items| ==> !Fits(cfg, out, items, k))
  }

  lemma {:induction false} GivenFront(items: seq<Item>)
    requires items != []
    ensures Given(items) == Given([items[0]]) + Given(items[1..])
    decreases |items|
  {
    if |items| == 1 {
      assert items == [items[0]] && items[1..] == [];
    } else {
      var but := items[..|items| - 1];
      GivenFront(but);
      Regroup(Given([items[0]]), Given(but[1..]), Given([items[|items| - 1]]));
      GivenOne(items[|items| - 1]);
      assert but[1..] == items[1..][..|items| - 2] && items[1..][|items| - 2] == items[|items| - 1];
    }
  }

  lemma GivenOne(i: Item)
    ensures Given([i]) == if i.opcode == 2 then [Message(i.payload)] else if i.opcode == 9 then [Pong(i.payload)] else []
  {
    assert [i][..0] == [];
  }

  lemma FitsRest(cfg: Config, out: seq<Event>, items: seq<Item>, i: nat)
    requires 0 < i < |items|
    ensures Fits(cfg, out, items, i) <==> Fits(cfg, out + Given([items[0]]), items[1..], i - 1)
  {
    GivenFront(items[..i]);
    assert items[..i][1..] == items[1..][..i - 1];
    Regroup(out, Given([items[0]]), Given(items[1..][..i - 1]));
  }

  lemma UpToRest(cfg: Config, out: seq<Event>, items: seq<Item>, k: nat)
    requires 0 < k && UpTo(cfg, out, items, k)
    ensures UpTo(cfg, out + Given([items[0]]), items[1..], k - 1)
  {
    hide Fits;
    forall i | 0 <= i < |items| - 1 ensures Fits(cfg, out + Given([items[0]]), items[1..], i) == Fits(cfg, out, items, i + 1) {
      FitsRest(cfg, out, items, i + 1);
    }
  }

  lemma FirstFits(cfg: Config, out: seq<Event>, items: seq<Item>)
    requires items != []
    ensures Fits(cfg, out, items, 0) <==> |items[0].payload| <= CapAfter(cfg, out) && items[0].opcode != 8
  {
    assert items[..0] == [] && out + [] == out;
  }

  lemma DispatchGives(cfg: Config, s: State, i: Item)
    ensures var d := Dispatch(cfg, s, i.opcode, i.payload);
            && (d.None? <==> i.opcode == 8)
            && (d.Some? ==> d.value.out == s.out + Given([i]))
  {
    GivenOne(i);
  }

  /** A stream of whole frames is told up to the first that does not fit. */
  lemma {:induction false} TellExact(cfg: Config, s: State, items: seq<Item>, k: nat)
    requires CapRight(cfg, s) && UpTo(cfg, s.out, items, k)
    ensures var t := Tell(cfg, s, items); t.taken == k && t.st.out == s.out + Given(items[..k]) && (t.whole <==> k == |items|)
    decreases |items|
  {
    hide Dispatch, Fits, Raised, Given;
    if items == [] {
      NothingGiven(s.out, items);
    } else {
      FirstFits(cfg, s.out, items);
      DispatchGives(cfg, s, items[0]);
      DispatchRight(cfg, s, items[0].opcode, items[0].payload);
      if k > 0 {
        var next := Dispatch(cfg, s, items[0].opcode, items[0].payload).value;
        UpToRest(cfg, s.out, items, k);
        TellExact(cfg, next, items[1..], k - 1);
        GivenFront(items[..k]);
        assert items[..k][1..] == items[1..][..k - 1];
        Regroup(s.out, Given([items[0]]), Given(items[1..][..k - 1]));
      } else {
        NothingGiven(s.out, items);
      }
    }
  }

  lemma NothingGiven(out: seq<Event>, items: seq<Item>)
    ensures out + Given(items[..0]) == out
  {
    assert items[..0] == [];
  }

  /** WebSocket frames, however cut into reads: everything up to the first frame that does not fit
      is given out, whole and in order, and the link is refused just there, or not at all. */
  lemma WsGivesAll(cfg: Config, f: Feed, items: seq<Item>, keys: seq<Option<seq<byte>>>, chunks: seq<seq<byte>>, k: nat)
    requires !f.st.codec.ByLength? && f.st.open && f.st.frag.None? && !f.refused && f.buf == [] && CapRight(cfg, f.st)
    requires |keys| == |items| && KeysFor(f.st.codec, keys)
    requires (forall i :: 0 <= i < |items| ==> Sendable(items[i])) && Flat(chunks) == WsFrames(items, keys)
    requires UpTo(cfg, f.st.out, items, k)
    ensures var g := PushAll(cfg, f, chunks);
            && g.st.out == f.st.out + Given(items[..k]) && (g.refused <==> k < |items|)
            && g.at == f.at + |WsFrames(items[..k], keys[..k])| && g.buf == []
  {
    hide Tell, PushAll, WsFrames, CapRight, UpTo;
    TellExact(cfg, f.st, items, k);
    WsEndToEnd(cfg, f, items, keys, chunks);
  }

  /** Length-prefixed messages, from the start of a link: the same, so a stream whose messages fit
      the cap in force as each comes is given out whole. */
  lemma LengthGivesAll(cfg: Config, msgs: seq<seq<byte>>, chunks: seq<seq<byte>>, k: nat)
    requires (forall i :: 0 <= i < |msgs| ==> |msgs[i]| < 0x1_0000_0000) && Flat(chunks) == LengthFrames(msgs)
    requires UpTo(cfg, [], Messages(msgs), k)
    ensures var g := PushAll(cfg, Start(ByLength), chunks);
            && |g.st.out| == k && (forall i :: 0 <= i < k ==> g.st.out[i] == Message(msgs[i]))
            && (g.refused <==> k < |msgs|) && g.at == |LengthFrames(msgs[..k])| && g.buf == []
  {
    hide Tell, PushAll, LengthFrames, CapRight, UpTo;
    StartRight(cfg, ByLength);
    TellExact(cfg, Opening(ByLength), Messages(msgs), k) by { UpToSize(cfg, Messages(msgs), k); }
    UpToSize(cfg, Messages(msgs), k);
    LengthEndToEnd(cfg, msgs, chunks);
    GivenMessages(msgs, k);
  }

  lemma UpToSize(cfg: Config, items: seq<Item>, k: nat)
    requires UpTo(cfg, [], items, k)
    ensures k <= |items| && UpTo(cfg, Opening(ByLength).out, items, k)
  {
  }

  lemma {:induction false} GivenMessages(msgs: seq<seq<byte>>, k: nat)
    requires k <= |msgs|
    ensures var g := Given(Messages(msgs)[..k]); |g| == k && forall i :: 0 <= i < k ==> g[i] == Message(msgs[i])
    decreases k
  {
    if k > 0 {
      GivenMessages(msgs, k - 1);
      assert Messages(msgs)[..k][..k - 1] == Messages(msgs)[..k - 1];
    }
  }

  /** There is always such a point. */
  lemma {:induction false} SomeUpTo(cfg: Config, out: seq<Event>, items: seq<Item>, from: nat) returns (k: nat)
    requires from <= |items| && forall i :: 0 <= i < from ==> Fits(cfg, out, items, i)
    ensures UpTo(cfg, out, items, k)
    decreases |items| - from
  {
    if from == |items| || !Fits(cfg, out, items, from) { k := from; } else { k := SomeUpTo(cfg, out, items, from + 1); }
  }

  // ── the upgrade head ─────────────────────────────────────────────────────────────────

  /** The head ends at its first blank line, within sixteen kilobytes or not at all. */
  lemma {:induction false} HeadEndExact(buf: seq<byte>, n: nat)
    requires n <= MAX_HEAD + 1
    ensures var h := FindHead(buf, n);
            && (h.EndAt? ==> n <= h.sep + 4 <= 16384 && EndsHead(buf, h.sep + 4) && forall m :: n <= m < h.sep + 4 ==> !EndsHead(buf, m))
            && (h.TooLong? ==> |buf| > 16384 && forall m :: n <= m <= 16384 ==> !EndsHead(buf, m))
            && (h.NotYet? ==> |buf| <= 16384 && forall m :: n <= m <= |buf| ==> !EndsHead(buf, m))
    decreases |buf| + 1 - n
  {
    hide EndsHead;
    if n <= |buf| && n <= MAX_HEAD && !EndsHead(buf, n) { HeadEndExact(buf, n + 1); }
  }

  // ── which headers are read ───────────────────────────────────────────────────────────

  /** A frame's first bytes, in the shortest length form, up to where its key would be. */
  ghost predicate HeadIs(buf: seq<byte>, fin: bool, opcode: nat, n: nat, masked: bool) {
    && |buf| >= 2 + |LengthField(n)|
    && buf[0] as nat == (if fin then 128 else 0) + opcode && buf[1] as nat == (if masked then 128 else 0) + Length7(n)
    && buf[2..2 + |LengthField(n)|] == LengthField(n)
  }

  ghost predicate Frameable(fin: bool, opcode: nat, n: nat) {
    && (opcode <= 2 || 8 <= opcode <= 10) && n < 0x1_0000_0000
    && (opcode >= 8 ==> fin && n <= 125 && (opcode == 8 ==> n != 1))
  }

  function HeadSize(n: nat, masked: bool): nat { 2 + |LengthField(n)| + (if masked then 4 else 0) }

  lemma BigEndian16(b: seq<byte>)
    requires |b| == 2
    ensures U16(b) < 0x1_0000 && Put16(U16(b)) == b
  {
  }

  lemma BigEndian32(b: seq<byte>)
    requires |b| == 4
    ensures U32(b) < 0x1_0000_0000 && Put32(U32(b)) == b
  {
    hide U16, Put16;
    BigEndian16(b[..2]);
    BigEndian16(b[2..]);
    HighLow(U16(b[..2]), U16(b[2..]));
    assert b == b[..2] + b[2..];
  }

  lemma HighLow(h: nat, l: nat)
    requires l < 0x1_0000
    ensures (0x1_0000 * h + l) / 0x1_0000 == h && (0x1_0000 * h + l) % 0x1_0000 == l
  {
  }

  /** A header is read exactly where these are a frame's first bytes, in the shortest form, masked as
      this end reads them, of a frame that may be, and within the cap: nothing else is read, and
      nothing of that is not. */
  lemma HeaderExact(buf: seq<byte>, masked: bool, cap: nat, fin: bool, opcode: nat, n: nat)
    ensures ReadHeader(buf, masked, cap) == Header(fin, opcode, HeadSize(n, masked), n)
            <==> HeadIs(buf, fin, opcode, n, masked) && Frameable(fin, opcode, n) && n <= cap
  {
    HeaderIsRead(buf, masked, cap, fin, opcode, n);
    HeaderWasThere(buf, masked, cap, fin, opcode, n);
  }

  lemma HeaderIsRead(buf: seq<byte>, masked: bool, cap: nat, fin: bool, opcode: nat, n: nat)
    ensures HeadIs(buf, fin, opcode, n, masked) && Frameable(fin, opcode, n) ==>
              ReadHeader(buf, masked, cap) == if n > cap then Bad else Header(fin, opcode, HeadSize(n, masked), n)
  {
    hide U16, U32, Put16, Put32;
    if HeadIs(buf, fin, opcode, n, masked) && Frameable(fin, opcode, n) {
      FirstByte(buf[0] as nat, fin, opcode);
      if 126 <= n < 0x1_0000 {
        assert buf[2..4] == Put16(n);
      } else if n >= 0x1_0000 {
        assert buf[2..6] == Put32(0) && buf[6..10] == Put32(n) by {
          assert buf[2..10][..4] == buf[2..6] && buf[2..10][4..] == buf[6..10];
        }
      }
    }
  }

  lemma FirstByte(b: nat, fin: bool, opcode: nat)
    requires opcode < 16 && b == (if fin then 128 else 0) + opcode
    ensures (b >= 128 <==> fin) && b % 16 == opcode && b / 16 % 8 == 0
  {
  }

  lemma HeaderWasThere(buf: seq<byte>, masked: bool, cap: nat, fin: bool, opcode: nat, n: nat)
    ensures ReadHeader(buf, masked, cap) == Header(fin, opcode, HeadSize(n, masked), n) ==>
              HeadIs(buf, fin, opcode, n, masked) && Frameable(fin, opcode, n) && n <= cap
  {
    hide U16, U32, Put16, Put32;
    if ReadHeader(buf, masked, cap) == Header(fin, opcode, HeadSize(n, masked), n) {
      FirstBack(buf[0] as nat);
      if buf[1] as nat % 128 == 126 {
        BigEndian16(buf[2..4]);
      } else if buf[1] as nat % 128 == 127 {
        BigEndian32(buf[2..6]);
        BigEndian32(buf[6..10]);
        assert buf[2..10] == buf[2..6] + buf[6..10];
      }
    }
  }

  lemma FirstBack(b: nat)
    requires b < 256 && b / 16 % 8 == 0
    ensures b == (if b >= 128 then 128 else 0) + b % 16
  {
  }

  /** Ten bytes settle it. */
  lemma HeaderSettled(buf: seq<byte>, masked: bool, cap: nat)
    requires |buf| >= 10
    ensures var h := ReadHeader(buf, masked, cap);
            && !h.Short?
            && (h.Header? ==> HeadIs(buf, h.fin, h.opcode, h.len, masked) && Frameable(h.fin, h.opcode, h.len) && h.len <= cap)
            && (h.Bad? ==> forall fin, opcode: nat, n: nat ::
                  HeadIs(buf, fin, opcode, n, masked) ==> !Frameable(fin, opcode, n) || n > cap)
  {
    hide U16, U32;
    var h := ReadHeader(buf, masked, cap);
    forall fin, opcode: nat, n: nat | HeadIs(buf, fin, opcode, n, masked) && Frameable(fin, opcode, n) && n <= cap
      ensures h.Header?
    {
      HeaderExact(buf, masked, cap, fin, opcode, n);
    }
    if h.Header? {
      HeaderSized(buf, masked, cap);
      HeaderExact(buf, masked, cap, h.fin, h.opcode, h.len);
    }
  }

  lemma HeaderSized(buf: seq<byte>, masked: bool, cap: nat)
    ensures var h := ReadHeader(buf, masked, cap); h.Header? ==> h.head == HeadSize(h.len, masked)
  {
    hide U16, U32, Put16, Put32;
    if |buf| >= 4 { BigEndian16(buf[2..4]); }
    if |buf| >= 10 { BigEndian32(buf[2..6]); }
  }

  // ── which frames may follow which ────────────────────────────────────────────────────

  /** A message begun before the i-th frame is not yet whole. */
  ghost predicate InMessage(parts: seq<Part>, i: int) {
    exists j :: 0 <= j < i <= |parts| && parts[j].opcode < 8 && !parts[j].fin
                && forall k :: j < k < i && parts[k].opcode < 8 ==> !parts[k].fin
  }

  /** A frame that may come where it does: no close, a fragment's next only inside a message, and
      another message only outside one. */
  ghost predicate InOrder(parts: seq<Part>, i: nat)
    requires i < |parts|
  {
    && parts[i].opcode != 8
    && (parts[i].opcode == 0 ==> InMessage(parts, i))
    && (0 < parts[i].opcode < 8 ==> !InMessage(parts, i))
  }

  function Sizes(parts: seq<Part>): nat {
    if parts == [] then 0 else Sizes(parts[..|parts| - 1]) + |parts[|parts| - 1].payload|
  }

  lemma {:induction false} HandleSnoc(cfg: Config, s: State, parts: seq<Part>, p: Part)
    ensures HandleAll(cfg, s, parts + [p]) ==
              var t := HandleAll(cfg, s, parts);
              if t.None? then None else Handle(cfg, t.value, p.fin, p.opcode, p.payload)
    decreases |parts|
  {
    hide Handle;
    if parts == [] {
      assert parts + [p] == [p] && [p][1..] == [];
    } else {
      assert (parts + [p])[1..] == parts[1..] + [p];
      var next := Handle(cfg, s, parts[0].fin, parts[0].opcode, parts[0].payload);
      if next.Some? { HandleSnoc(cfg, next.value, parts[1..], p); }
    }
  }

  /** Inside a message exactly where a fragment is held, of no more than has come. */
  ghost predicate Held(s: State, inside: bool, size: nat) {
    && (s.frag.Some? <==> inside)
    && (s.frag.Some? ==> s.frag.value.opcode < 8 && 0 < s.frag.value.opcode && |Flat(s.frag.value.pieces)| <= size)
  }

  lemma InMessageNext(parts: seq<Part>, i: nat)
    requires i < |parts|
    ensures InMessage(parts, i + 1) <==> (if parts[i].opcode < 8 then !parts[i].fin else InMessage(parts, i))
  {
    if InMessage(parts, i + 1) && parts[i].opcode >= 8 {
      var j :| 0 <= j < i + 1 && parts[j].opcode < 8 && !parts[j].fin
               && forall k :: j < k < i + 1 && parts[k].opcode < 8 ==> !parts[k].fin;
      assert j < i;
    }
    if parts[i].opcode < 8 && !parts[i].fin { assert InMessage(parts, i + 1); }
    if InMessage(parts, i) && parts[i].opcode >= 8 {
      var j :| 0 <= j < i && parts[j].opcode < 8 && !parts[j].fin
               && forall k :: j < k < i && parts[k].opcode < 8 ==> !parts[k].fin;
      assert forall k :: j < k < i + 1 && parts[k].opcode < 8 ==> !parts[k].fin;
    }
  }

  lemma HandleOrders(cfg: Config, s: State, p: Part, inside: bool, size: nat)
    requires Held(s, inside, size) && size + |p.payload| <= s.cap <= cfg.max && (p.opcode >= 8 ==> p.fin)
    ensures var d := Handle(cfg, s, p.fin, p.opcode, p.payload);
            && (d.Some? <==> p.opcode != 8 && (p.opcode == 0 ==> inside) && (0 < p.opcode < 8 ==> !inside))
            && (d.Some? ==> s.cap <= d.value.cap <= cfg.max
                            && Held(d.value, if p.opcode < 8 then !p.fin else inside, size + |p.payload|))
  {
    if s.frag.Some? { FlatSnoc(s.frag.value.pieces, p.payload); }
    assert Flat([p.payload]) == p.payload;
  }

  /** Within the cap, frames are taken one after another exactly while each may come where it does. */
  lemma {:induction false} OrderExact(cfg: Config, s: State, parts: seq<Part>, i: nat)
    requires s.frag.None? && i <= |parts| && Sizes(parts[..i]) <= s.cap <= cfg.max
    requires forall j :: 0 <= j < i ==> parts[j].opcode >= 8 ==> parts[j].fin
    ensures var t := HandleAll(cfg, s, parts[..i]);
            && (t.Some? <==> forall j: nat :: j < i ==> InOrder(parts, j))
            && (t.Some? ==> s.cap <= t.value.cap <= cfg.max && Held(t.value, InMessage(parts, i), Sizes(parts[..i])))
    decreases i
  {
    hide Handle, InMessage, Held;
    if i == 0 {
      NoneYet(parts, s);
    } else {
      var p, before := parts[i - 1], parts[..i - 1];
      assert parts[..i] == before + [p] && parts[..i][..i - 1] == before;
      OrderExact(cfg, s, parts, i - 1);
      HandleSnoc(cfg, s, before, p);
      InMessageNext(parts, i - 1);
      var t := HandleAll(cfg, s, before);
      OneMoreInOrder(parts, i - 1);
      if t.Some? { HandleOrders(cfg, t.value, p, InMessage(parts, i - 1), Sizes(before)); }
    }
  }

  lemma OneMoreInOrder(parts: seq<Part>, last: nat)
    requires last < |parts|
    ensures (forall j: nat :: j < last + 1 ==> InOrder(parts, j)) <==>
              (forall j: nat :: j < last ==> InOrder(parts, j)) && InOrder(parts, last)
  {
    hide InOrder;
  }

  lemma NoneYet(parts: seq<Part>, s: State)
    requires s.frag.None?
    ensures !InMessage(parts, 0) && Held(s, false, Sizes(parts[..0]))
  {
  }

  // ── fragments ────────────────────────────────────────────────────────────────────────

  /** A message cut into fragments is given out whole after the pongs between, or the link is
      refused where they pass the cap in force. */
  lemma FragmentsGive(cfg: Config, s: State, so: seq<byte>, parts: seq<Part>)
    requires Holding(s, so) && |so| <= s.cap && Tail(parts) && CapRight(cfg, s)
    ensures var t := HandleAll(cfg, s, parts);
            && (t.None? <==> |so + Joined(parts)| > s.cap)
            && (t.Some? ==> t.value.frag.None? && CapRight(cfg, t.value)
                            && t.value.out == s.out + Answers(parts) + [Message(so + Joined(parts))])
  {
    hide CapRight, Joined, HandleAll;
    FragmentsJoin(cfg, s, so, parts);
    AnswersRight(cfg, s, parts);
    var u := s.(frag := None, out := s.out + Answers(parts));
    RightBut(cfg, s.(out := u.out), u);
    DeliverRight(cfg, u, so + Joined(parts));
  }

  lemma {:induction false} AnswersRight(cfg: Config, s: State, parts: seq<Part>)
    requires CapRight(cfg, s)
    ensures CapRight(cfg, s.(out := s.out + Answers(parts)))
    decreases |parts|
  {
    hide Raised;
    if parts == [] {
      assert s.out + [] == s.out;
    } else {
      PartsFront(parts);
      PartOne(parts[0]);
      if parts[0].opcode == PING { RaisedOn(cfg, s.out, Pong(parts[0].payload)); } else { assert s.out + [] == s.out; }
      AnswersRight(cfg, s.(out := s.out + Answers([parts[0]])), parts[1..]);
      Regroup(s.out, Answers([parts[0]]), Answers(parts[1..]));
    }
  }
}
