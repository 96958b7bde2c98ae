/** Two ends of a stream over a network that may drop, duplicate, delay and reorder anything
    ever put on it: an arriving packet is any packet the other end has sent. Proved of every
    run: the reader gets a prefix of what was written, nothing acked is ever lost, a drained
    sender means everything arrived, and no honest packet is refused for credit. */
module StreamNetwork {
  import opened Base
  import opened AckRanges
  import opened StreamSpec
  import opened StreamSender
  import opened StreamReceiver

  datatype Event =
    | Started
    | Written(bytes: seq<byte>)
    | Arrived(p: Packet)
    | Woken
    | TurnEnded
    | ReaderSet
    | ReadSettled
    | Moved(rttMs: real)
    | Closing(graceful: bool)

  ghost function Step(s: Stream, ev: Event, t: real): Stream {
    match ev
    case Started => Start(s, t)
    case Written(bytes) => Send(s, bytes, t)
    case Arrived(p) => Receive(s, p, t)
    case Woken => OnWake(s, t)
    case TurnEnded => Turn(s, t)
    case ReaderSet => Reader(s, t)
    case ReadSettled => ReadDone(s, t)
    case Moved(rttMs) => Repath(s, rttMs, t)
    case Closing(graceful) => CloseStream(s, graceful, t)
  }

  /** What an event's ack brings, and the number its packet carries, or -1. */
  function NewsOf(ev: Event): News { if ev.Arrived? && ev.p.Ack? then News(ev.p.credit, ev.p.ranges) else Quiet() }
  function NumberOf(ev: Event): int { if ev.Arrived? && (ev.p.Data? || ev.p.Probe?) then ev.p.pn else -1 }

  ghost predicate EndOk(s: Stream) { SendOk(s) && RecvOk(s) }

  lemma FreshOk()
    ensures EndOk(Fresh())
  {
    var s := Fresh();
    assert SumMap(s.tx.inFlight, SizeOf()) == 0 && SumMap(s.rx.ahead, CostOf()) == 0;
  }

  // ── one end ────────────────────────────────────────────────────────────────────────

  lemma DeliverSame(s: Stream, t: real)
    ensures TxSame(s, Deliver(s, t))
  {
    SendAckSame(TuneCredit(HandOver(s), t), t);
  }

  lemma ReceivedSame(s: Stream, pn: nat, t: real)
    ensures TxSame(s, Received(s, pn, t))
  {
    var noted := Note(s, pn).(rx := Note(s, pn).rx.(turnDue := true));
    SendAckSame(noted, t);
  }

  lemma CloseSame(s: Stream, graceful: bool, t: real)
    ensures TxSame(s, CloseStream(s, graceful, t)) && RxSame(s, CloseStream(s, graceful, t))
  {
    EndStreamSame(s, t);
    EndStreamRx(s, t);
  }

  lemma ReceiveSteps(s: Stream, p: Packet, t: real)
    requires SendOk(s)
    ensures Steps(s, Receive(s, p, t), NewsOf(Arrived(p)))
  {
    hide TxOk, WireOk, Evolves;
    var h := NewsOf(Arrived(p));
    TxSameSteps(s, s, h);
    if !s.life.gone {
      var heard := s.(life := s.life.(lastHeard := t));
      TxSameSteps(s, heard, h);
      match p
      case Data(pn, offset, floor, bytes) =>
        ReceivedSame(heard, pn, t);
        assert TxSame(s, OnChunk(heard, pn, offset, floor, bytes, t));
        TxSameSteps(s, OnChunk(heard, pn, offset, floor, bytes, t), h);
      case Ack(credit, delay, ranges) =>
        OnAckKeeps(heard, credit, delay, ranges, t);
        StepsTrans(s, heard, OnAck(heard, credit, delay, ranges, t), h);
      case Probe(pn) =>
        ReceivedSame(heard, pn, t);
        TxSameSteps(s, Received(heard, pn, t), h);
      case Close =>
        TxSameSteps(s, Fail(heard), h);
    }
  }

  lemma ReceiveHears(s: Stream, p: Packet, t: real)
    requires RecvOk(s)
    ensures Hears(s, Receive(s, p, t), NumberOf(Arrived(p)))
  {
    hide RxOk, RxGrows, NamesOnly, Overrun;
    RxSameHears(s, s);
    HearsLess(s, s, NumberOf(Arrived(p)));
    if !s.life.gone {
      var heard := s.(life := s.life.(lastHeard := t));
      RxSameHears(s, heard);
      HearsLess(s, heard, NumberOf(Arrived(p)));
      match p
      case Data(pn, offset, floor, bytes) =>
        if bytes != [] {
          OnChunkHears(heard, pn, offset, floor, bytes, t);
          if Accepts(heard, offset, bytes) {
            HearsTrans(s, heard, OnChunk(heard, pn, offset, floor, bytes, t), pn);
          }
        }
      case Ack(credit, delay, ranges) =>
        OnAckRx(heard, credit, delay, ranges, t);
        RxSameHears(heard, OnAck(heard, credit, delay, ranges, t));
        HearsTrans(s, heard, OnAck(heard, credit, delay, ranges, t), -1);
      case Probe(pn) =>
        ReceivedHears(heard, pn, t);
        HearsTrans(s, heard, Received(heard, pn, t), pn);
      case Close =>
        RxSameHears(s, Fail(heard));
    }
  }

  lemma SendRx(s: Stream, bytes: seq<byte>, t: real)
    ensures RxSame(s, Send(s, bytes, t))
  {
    var m := s.(tx := s.tx.(said := s.tx.said + bytes));
    FlushRx(m, 0, t);
  }

  lemma TurnSame(s: Stream, t: real)
    ensures TxSame(s, Turn(s, t)) && TxSame(s, Reader(s, t)) && TxSame(s, ReadDone(s, t))
  {
    var m := s.(rx := s.rx.(turnDue := false));
    DeliverSame(m, t);
    SendAckSame(Deliver(m, t), t);
    DeliverSame(s.(rx := s.rx.(hasReader := true)), t);
    DeliverSame(s.(rx := s.rx.(reading := false)), t);
  }

  /** Every event keeps both sides of an end, whatever packet arrives. */
  lemma StepKeeps(s: Stream, ev: Event, t: real)
    requires EndOk(s)
    ensures Steps(s, Step(s, ev, t), NewsOf(ev)) && Hears(s, Step(s, ev, t), NumberOf(ev))
  {
    hide TxOk, WireOk, Evolves, RxOk, RxGrows, NamesOnly, Overrun;
    match ev
    case Started => StartKeeps(s, t); StartHears(s, t);
    case Written(bytes) => SendKeeps(s, bytes, t); SendRx(s, bytes, t); RxSameHears(s, Send(s, bytes, t));
    case Arrived(p) => ReceiveSteps(s, p, t); ReceiveHears(s, p, t);
    case Woken => OnWakeKeeps(s, t); OnWakeHears(s, t);
    case TurnEnded => TurnSame(s, t); TxSameSteps(s, Turn(s, t), Quiet()); TurnHears(s, t);
    case ReaderSet => TurnSame(s, t); TxSameSteps(s, Reader(s, t), Quiet()); ReaderHears(s, t);
    case ReadSettled => TurnSame(s, t); TxSameSteps(s, ReadDone(s, t), Quiet()); ReaderHears(s, t);
    case Moved(rttMs) => RepathKeeps(s, rttMs, t); RepathHears(s, rttMs, t);
    case Closing(graceful) =>
      CloseSame(s, graceful, t);
      TxSameSteps(s, CloseStream(s, graceful, t), Quiet());
      RxSameHears(s, CloseStream(s, graceful, t));
  }

  // ── what the peer wrote ────────────────────────────────────────────────────────────

  /** The bytes received are the same, wherever they wait. */
  ghost predicate SameBytes(a: Rx, b: Rx) {
    b.handed == a.handed && b.taken == a.taken && b.held == a.held && b.ahead == a.ahead
  }

  lemma HonestSame(tx: Tx, a: Rx, b: Rx)
    requires Honest(tx, a) && SameBytes(a, b)
    ensures Honest(tx, b)
  {
  }

  lemma DeliverHonest(tx: Tx, s: Stream, t: real)
    requires RxOk(s.rx) && Honest(tx, s.rx)
    ensures Honest(tx, Deliver(s, t).rx)
  {
    HandOverHonest(tx, s);
    HonestSame(tx, HandOver(s).rx, Deliver(s, t).rx);
  }

  lemma FlaggedHonest(tx: Tx, s: Stream, m: Stream, t: real)
    requires RxOk(s.rx) && Honest(tx, s.rx)
    requires m == s.(rx := s.rx.(turnDue := m.rx.turnDue, hasReader := m.rx.hasReader, reading := m.rx.reading))
    ensures Honest(tx, Deliver(m, t).rx)
  {
    HonestSame(tx, s.rx, m.rx);
    DeliverHonest(tx, m, t);
  }

  lemma TurnHonest(tx: Tx, s: Stream, t: real)
    requires RxOk(s.rx) && Honest(tx, s.rx)
    ensures Honest(tx, Turn(s, t).rx) && Honest(tx, Reader(s, t).rx) && Honest(tx, ReadDone(s, t).rx)
  {
    hide Honest, RxOk, TuneCredit, HandOver;
    var m := s.(rx := s.rx.(turnDue := false));
    FlaggedHonest(tx, s, m, t);
    var d := Deliver(m, t);
    assert SameBytes(d.rx, SendAck(d, t).rx);
    HonestSame(tx, d.rx, SendAck(d, t).rx);
    FlaggedHonest(tx, s, s.(rx := s.rx.(hasReader := true)), t);
    FlaggedHonest(tx, s, s.(rx := s.rx.(reading := false)), t);
  }

  lemma OnChunkHonest(tx: Tx, s: Stream, pn: nat, offset: nat, floor: nat, bytes: seq<byte>, t: real)
    requires Honest(tx, s.rx) && Carries(tx, offset, bytes)
    ensures Honest(tx, OnChunk(s, pn, offset, floor, bytes, t).rx)
  {
    var noted := Received(s, pn, t).rx;
    var pruned := noted.(ranges := Trim(noted.ranges, floor));
    HonestSame(tx, s.rx, pruned);
    StoreHonest(tx, pruned, offset, bytes);
  }

  lemma ReceiveHonest(tx: Tx, s: Stream, p: Packet, t: real)
    requires Honest(tx, s.rx)
    requires p.Data? ==> Carries(tx, p.offset, p.bytes)
    ensures Honest(tx, Receive(s, p, t).rx)
  {
    var heard := s.(life := s.life.(lastHeard := t));
    match p
    case Data(pn, offset, floor, bytes) => OnChunkHonest(tx, heard, pn, offset, floor, bytes, t);
    case Ack(credit, delay, ranges) => OnAckRx(heard, credit, delay, ranges, t);
    case Probe(pn) => HonestSame(tx, s.rx, Received(heard, pn, t).rx);
    case Close =>
  }

  lemma QuietBytes(s: Stream, ev: Event, t: real)
    requires !ev.Arrived? && !ev.TurnEnded? && !ev.ReaderSet? && !ev.ReadSettled?
    ensures SameBytes(s.rx, Step(s, ev, t).rx)
  {
    match ev
    case Started =>
      var up := Opened(s, t);
      FlushRx(if up.rx.ranges != [] then SendAck(up, t) else up, 0, t);
    case Written(bytes) => SendRx(s, bytes, t);
    case Woken => WakeBytes(s, t);
    case Moved(rttMs) => FlushRx(SendAck(Forget(s, rttMs, t), t), 0, t);
    case Closing(graceful) => CloseSame(s, graceful, t);
  }

  lemma WakeBytes(s: Stream, t: real)
    ensures SameBytes(s.rx, OnWake(s, t).rx)
  {
    EndStreamRx(s, t);
    var ticked := if Le(s.life.liveAt, Fin(t)) then Tick(s, t) else s;
    OnRecoveryRx(ticked, t);
    assert SameBytes(s.rx, ticked.rx);
  }

  /** Whatever happens at an end, what it received stays what its peer wrote. */
  lemma StepHonest(tx: Tx, s: Stream, ev: Event, t: real)
    requires RecvOk(s) && Honest(tx, s.rx)
    requires ev.Arrived? && ev.p.Data? ==> Carries(tx, ev.p.offset, ev.p.bytes)
    ensures Honest(tx, Step(s, ev, t).rx)
  {
    if ev.Arrived? {
      ReceiveHonest(tx, s, ev.p, t);
    } else if ev.TurnEnded? || ev.ReaderSet? || ev.ReadSettled? {
      TurnHonest(tx, s, t);
    } else {
      QuietBytes(s, ev, t);
      HonestSame(tx, s.rx, Step(s, ev, t).rx);
    }
  }

  // ── two ends ───────────────────────────────────────────────────────────────────────

  /** Packet `pn` reached the receiver: its chunk, if it carried one, is covered. */
  ghost predicate Got(tx: Tx, rx: Rx, pn: int) {
    pn < tx.nextPn && (pn in tx.numbers ==> Covered(rx, tx.numbers[pn]))
  }

  ghost predicate AllGot(tx: Tx, rx: Rx, ranges: seq<Range>) {
    forall pn :: Names(ranges, pn) ==> Got(tx, rx, pn)
  }

  /** What holds of one direction, from `a` to `b`. */
  ghost predicate Direction(a: Stream, b: Stream) {
    && Honest(a.tx, b.rx)
    && AllGot(a.tx, b.rx, b.rx.ranges)
    && (forall q :: q in b.wire && q.Ack? ==> q.credit <= b.rx.taken + b.rx.credit && AllGot(a.tx, b.rx, q.ranges))
    && (forall o :: Forgotten(a.tx, o) ==> Covered(b.rx, o))
    && a.tx.peerCredit <= b.rx.taken + b.rx.credit
  }

  ghost predicate Linked(a: Stream, b: Stream) {
    EndOk(a) && EndOk(b) && Direction(a, b) && Direction(b, a)
  }

  lemma HonestStable(a: Tx, b: Tx, h: News, rx: Rx)
    requires Evolves(a, b, h) && Honest(a, rx)
    ensures Honest(b, rx)
  {
    forall o | o in rx.ahead ensures Carries(b, o, rx.ahead[o]) {
      CarriesStable(a, b, h, o, rx.ahead[o]);
    }
  }

  lemma AllGotStable(a: Tx, b: Tx, h: News, rx: Rx, r: seq<Range>)
    requires Evolves(a, b, h) && AllGot(a, rx, r)
    ensures AllGot(b, rx, r)
  {
    forall pn | Names(r, pn) ensures Got(b, rx, pn) { assert Got(a, rx, pn); }
  }

  /** A cell is forgotten for an ack, so for a packet the receiver had, so it is covered. */
  lemma ForgottenCovered(a: Tx, b: Tx, h: News, rx: Rx)
    requires Evolves(a, b, h) && AllGot(a, rx, h.ranges)
    requires forall o :: Forgotten(a, o) ==> Covered(rx, o)
    ensures forall o :: Forgotten(b, o) ==> Covered(rx, o)
  {
    forall o | Forgotten(b, o)
      ensures Covered(rx, o)
    {
      if !Forgotten(a, o) {
        var pn :| pn in b.numbers && b.numbers[pn] == o && Names(h.ranges, pn);
        assert Got(a, rx, pn);
      }
    }
  }

  /** The sender moves on, on an ack the receiver sent or on none. */
  lemma SenderMoves(a: Stream, a': Stream, b: Stream, h: News)
    requires Direction(a, b) && Steps(a, a', h)
    requires AllGot(a.tx, b.rx, h.ranges) && h.credit <= b.rx.taken + b.rx.credit
    ensures Direction(a', b)
  {
    HonestStable(a.tx, a'.tx, h, b.rx);
    AllGotStable(a.tx, a'.tx, h, b.rx, b.rx.ranges);
    forall q | q in b.wire && q.Ack?
      ensures AllGot(a'.tx, b.rx, q.ranges)
    {
      AllGotStable(a.tx, a'.tx, h, b.rx, q.ranges);
    }
    ForgottenCovered(a.tx, a'.tx, h, b.rx);
  }

  lemma AllGotGrows(tx: Tx, r: Rx, r': Rx, ranges: seq<Range>, known: seq<Range>, pn: int)
    requires AllGot(tx, r, known) && RxGrows(r, r') && NamesOnly(ranges, known, pn)
    requires pn >= 0 ==> Got(tx, r', pn)
    ensures AllGot(tx, r', ranges)
  {
    forall x | Names(ranges, x) ensures Got(tx, r', x) {
      if Names(known, x) { assert Got(tx, r, x); }
    }
  }

  /** The receiver moves on: what it had it keeps, and a packet it takes is covered. */
  lemma ReceiverMoves(a: Stream, b: Stream, b': Stream, pn: int)
    requires Direction(a, b) && Hears(b, b', pn) && Honest(a.tx, b'.rx)
    requires pn >= 0 ==> Got(a.tx, b'.rx, pn)
    ensures Direction(a, b')
  {
    AllGotGrows(a.tx, b.rx, b'.rx, b'.rx.ranges, b.rx.ranges, pn);
    forall q | q in b'.wire && q.Ack?
      ensures q.credit <= b'.rx.taken + b'.rx.credit && AllGot(a.tx, b'.rx, q.ranges)
    {
      if q in b.wire {
        AllGotGrows(a.tx, b.rx, b'.rx, q.ranges, q.ranges, -1);
      } else {
        AllGotGrows(a.tx, b.rx, b'.rx, q.ranges, b.rx.ranges, pn);
      }
    }
  }

  /** A numbered packet that arrives is a probe, or a chunk now covered, or was not taken. */
  lemma ArrivalGot(a: Stream, b: Stream, p: Packet, t: real)
    requires SendOk(a) && RecvOk(b) && p in a.wire && (p.Data? || p.Probe?)
    ensures Got(a.tx, Receive(b, p, t).rx, p.pn) || Hears(b, Receive(b, p, t), -1)
  {
    assert PacketOk(a.tx, p);
    if b.life.gone {
      RxSameHears(b, b);
    } else if p.Data? {
      var heard := b.(life := b.life.(lastHeard := t));
      RxSameHears(b, heard);
      assert p.bytes != [] && p.pn in a.tx.numbers && a.tx.numbers[p.pn] == p.offset;
      OnChunkHears(heard, p.pn, p.offset, p.floor, p.bytes, t);
      assert Receive(b, p, t) == OnChunk(heard, p.pn, p.offset, p.floor, p.bytes, t);
      assert NumbersOk(a.tx);
    }
  }

  /** Only a packet of the other end arrives. */
  ghost predicate Carried(ev: Event, peer: Stream) { ev.Arrived? ==> ev.p in peer.wire }

  lemma OutboundKept(a: Stream, b: Stream, ev: Event, t: real)
    requires Linked(a, b) && Carried(ev, b)
    ensures Direction(Step(a, ev, t), b)
  {
    StepKeeps(a, ev, t);
    assert forall pn :: !Names([], pn);
    SenderMoves(a, Step(a, ev, t), b, NewsOf(ev));
  }

  lemma InboundKept(a: Stream, b: Stream, ev: Event, t: real)
    requires Linked(a, b) && Carried(ev, b)
    ensures Direction(b, Step(a, ev, t))
  {
    var a' := Step(a, ev, t);
    StepKeeps(a, ev, t);
    if ev.Arrived? { assert PacketOk(b.tx, ev.p); }
    StepHonest(b.tx, a, ev, t);
    if NumberOf(ev) >= 0 {
      ArrivalGot(b, a, ev.p, t);
      if Got(b.tx, a'.rx, NumberOf(ev)) {
        ReceiverMoves(b, a, a', NumberOf(ev));
      } else {
        ReceiverMoves(b, a, a', -1);
      }
    } else {
      ReceiverMoves(b, a, a', NumberOf(ev));
    }
  }

  /** Whatever one end does, the two stay linked. */
  lemma LinkedStep(a: Stream, b: Stream, ev: Event, t: real)
    requires Linked(a, b) && Carried(ev, b)
    ensures Linked(Step(a, ev, t), b) && Linked(b, Step(a, ev, t))
  {
    StepKeeps(a, ev, t);
    OutboundKept(a, b, ev, t);
    InboundKept(a, b, ev, t);
  }

  // ── every run ──────────────────────────────────────────────────────────────────────

  datatype Pair = Pair(a: Stream, b: Stream)
  datatype Act = Act(atA: bool, ev: Event, t: real)

  ghost function Apply(w: Pair, act: Act): Pair {
    if act.atA then w.(a := Step(w.a, act.ev, act.t)) else w.(b := Step(w.b, act.ev, act.t))
  }

  /** The acts of a run, each possible when its turn comes. */
  ghost predicate Possible(w: Pair, acts: seq<Act>)
    decreases |acts|
  {
    acts == [] || (Carried(acts[0].ev, if acts[0].atA then w.b else w.a) && Possible(Apply(w, acts[0]), acts[1..]))
  }

  ghost function Run(w: Pair, acts: seq<Act>): Pair
    decreases |acts|
  {
    if acts == [] then w else Run(Apply(w, acts[0]), acts[1..])
  }

  lemma {:induction false} RunLinked(w: Pair, acts: seq<Act>)
    requires Linked(w.a, w.b) && Possible(w, acts)
    ensures Linked(Run(w, acts).a, Run(w, acts).b)
    decreases |acts|
  {
    if acts != [] {
      if acts[0].atA {
        LinkedStep(w.a, w.b, acts[0].ev, acts[0].t);
      } else {
        LinkedStep(w.b, w.a, acts[0].ev, acts[0].t);
      }
      RunLinked(Apply(w, acts[0]), acts[1..]);
    }
  }

  function Opening(): Pair { Pair(Fresh(), Fresh()) }

  lemma OpeningLinked()
    ensures Linked(Opening().a, Opening().b)
  {
    FreshOk();
  }

  lemma EveryRunLinked(acts: seq<Act>)
    requires Possible(Opening(), acts)
    ensures Linked(Run(Opening(), acts).a, Run(Opening(), acts).b)
  {
    OpeningLinked();
    RunLinked(Opening(), acts);
  }

  /** Stream safety: in every run, what each reader was handed is a prefix of what the other
      end wrote, and so is what is still held for it. */
  lemma EveryReadIsAPrefix(acts: seq<Act>)
    requires Possible(Opening(), acts)
    ensures var w := Run(Opening(), acts);
            w.b.rx.handed <= w.a.tx.said && w.b.rx.handed + Flat(w.b.rx.held) <= w.a.tx.said
            && w.a.rx.handed <= w.b.tx.said && w.a.rx.handed + Flat(w.a.rx.held) <= w.b.tx.said
  {
    EveryRunLinked(acts);
    var w := Run(Opening(), acts);
    HeldPrefix(w.a.tx, w.b.rx);
    HeldPrefix(w.b.tx, w.a.rx);
  }

  lemma HeldPrefix(tx: Tx, rx: Rx)
    requires Honest(tx, rx)
    ensures rx.handed <= tx.said && rx.handed + Flat(rx.held) == tx.said[..End(rx)]
  {
    assert tx.said[..rx.taken] + tx.said[rx.taken..End(rx)] == tx.said[..End(rx)];
  }

  /** Nothing acked is ever lost: a cell the sender has forgotten, from `o` to the next cut
      `n`, is below the peer's in-order end, or waits in its `ahead` under `o` with at least
      the cell's length. */
  lemma NothingAckedIsLost(acts: seq<Act>, o: nat, n: nat)
    requires Possible(Opening(), acts)
    requires var tx := Run(Opening(), acts).a.tx;
             Forgotten(tx, o) && n in tx.bounds && o < n && forall b :: b in tx.bounds ==> b <= o || n <= b
    ensures var rx := Run(Opening(), acts).b.rx;
            n <= End(rx) || (o in rx.ahead && o + |rx.ahead[o]| >= n)
  {
    EveryRunLinked(acts);
    var w := Run(Opening(), acts);
    assert Covered(w.b.rx, o);
    if o in w.b.rx.ahead { assert Carries(w.a.tx, o, w.b.rx.ahead[o]); }
  }

  /** A graceful close waits for `buffered()` to reach 0: then everything written is in order
      at the peer. */
  lemma DrainedMeansArrived(acts: seq<Act>)
    requires Possible(Opening(), acts)
    requires Buffered(Run(Opening(), acts).a.tx) == 0
    ensures var w := Run(Opening(), acts);
            End(w.b.rx) == |w.a.tx.said| && w.b.rx.handed + Flat(w.b.rx.held) == w.a.tx.said
  {
    EveryRunLinked(acts);
    var w := Run(Opening(), acts);
    Drained(w.a, w.b);
    HeldPrefix(w.a.tx, w.b.rx);
  }

  /** `buffered()` counts what is not acked, back to the oldest chunk: none of it is left
      exactly when every chunk is acked and every byte sent. */
  lemma BufferedCounts(tx: Tx)
    requires ChunksOk(tx) && Tiled(tx)
    ensures Buffered(tx) >= |tx.said| - tx.nextOffset
    ensures Buffered(tx) == 0 <==> tx.chunks == map[] && tx.nextOffset == |tx.said|
  {
    if tx.chunks.Keys != {} {
      var o := Least(tx.chunks.Keys);
      assert Carries(tx, o, tx.chunks[o]);
    }
  }

  lemma Drained(a: Stream, b: Stream)
    requires Linked(a, b) && Buffered(a.tx) == 0
    ensures End(b.rx) == |a.tx.said|
  {
    var tx := a.tx;
    BufferedCounts(tx);
    assert End(b.rx) < tx.nextOffset ==> Forgotten(tx, End(b.rx));
  }

  /** The sender never has more credit than the receiver gives, so no packet either end ever
      sends is refused for credit, whenever it arrives. */
  lemma NoHonestPacketRefused(acts: seq<Act>, p: Packet)
    requires Possible(Opening(), acts)
    requires p in Run(Opening(), acts).a.wire && p.Data?
    ensures var w := Run(Opening(), acts);
            w.a.tx.peerCredit <= w.b.rx.taken + w.b.rx.credit && Accepts(w.b, p.offset, p.bytes)
  {
    EveryRunLinked(acts);
    var w := Run(Opening(), acts);
    assert PacketOk(w.a.tx, p);
  }

  /** An ack never names a packet that did not arrive. */
  ghost predicate ArrivedAtB(acts: seq<Act>, pn: int) {
    exists i :: 0 <= i < |acts| && !acts[i].atA && NumberOf(acts[i].ev) == pn
  }

  lemma {:induction false} AcksNameArrivals(w: Pair, acts: seq<Act>, pn: int)
    requires EndOk(w.a) && EndOk(w.b) && !Names(w.b.rx.ranges, pn)
    requires forall q :: q in w.b.wire && q.Ack? ==> !Names(q.ranges, pn)
    requires !ArrivedAtB(acts, pn)
    ensures var b := Run(w, acts).b;
            !Names(b.rx.ranges, pn) && forall q :: q in b.wire && q.Ack? ==> !Names(q.ranges, pn)
    decreases |acts|
  {
    if acts != [] {
      var act, u := acts[0], Apply(w, acts[0]);
      assert forall i :: 0 <= i < |acts[1..]| ==> acts[1..][i] == acts[i + 1];
      if act.atA {
        StepKeeps(w.a, act.ev, act.t);
      } else {
        StepKeeps(w.b, act.ev, act.t);
        assert NumberOf(acts[0].ev) != pn;
        forall q | q in u.b.wire && q.Ack? ensures !Names(q.ranges, pn) {
          if q !in w.b.wire { assert NamesOnly(q.ranges, w.b.rx.ranges, NumberOf(act.ev)); }
        }
      }
      AcksNameArrivals(u, acts[1..], pn);
    }
  }

  /** For any packets at all, honest or not, an end holds at most a credit in order, and past
      a gap at most two credits, counted as packets and as slices, or it has ended. */
  lemma {:induction false} ReceiverBounds(s: Stream, evs: seq<Event>, ts: seq<real>)
    requires EndOk(s) && |evs| == |ts|
    ensures var r := After(s, evs, ts);
            && |Flat(r.rx.held)| <= r.rx.credit <= MAX_CREDIT
            && r.rx.aheadBytes == SumMap(r.rx.ahead, CostOf())
            && (r.life.gone || (r.rx.aheadBytes <= 2 * r.rx.credit
                && (|r.rx.held| + |r.rx.ahead|) * MIN_CHUNK <= 2 * r.rx.credit))
    decreases |evs|
  {
    if evs != [] {
      StepKeeps(s, evs[0], ts[0]);
      ReceiverBounds(Step(s, evs[0], ts[0]), evs[1..], ts[1..]);
    }
  }

  ghost function After(s: Stream, evs: seq<Event>, ts: seq<real>): Stream
    requires |evs| == |ts|
    decreases |evs|
  {
    if evs == [] then s else After(Step(s, evs[0], ts[0]), evs[1..], ts[1..])
  }
}
