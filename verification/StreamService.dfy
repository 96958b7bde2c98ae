/** What an end owes its reader, its peer and its closer over every event
    (WASM/transport/src/stream.js:248-412): bytes in order are handed over with the turn, arrivals
    are acked with it or at once, the peer is told of credit in time, a graceful close ends as the
    stream drains, and what is buffered is bounded. */
module StreamService {
  import opened Base
  import opened AckRanges
  import opened StreamSpec
  import opened StreamSender
  import opened StreamReceiver
  import opened StreamNetwork
  import opened StreamFlow
  import opened StreamProgress

  // ── what is owed ─────────────────────────────────────────────────────────────────────

  /** Bytes in order wait only for a turn already due, for no reader, or for one at work. */
  ghost predicate Served(s: Stream) { s.rx.hasReader && !s.rx.reading && s.rx.held != [] ==> s.rx.turnDue }

  /** An arrival not acked has a turn due, which acks it. */
  ghost predicate AcksDue(s: Stream) { s.life.open && s.rx.unacked > 0 ==> s.rx.turnDue }

  /** Nothing has arrived, and the first credit stands. */
  ghost predicate Untouched(rx: Rx) {
    && rx.taken == 0 && rx.held == [] && rx.unacked == 0 && rx.credit == rx.advertised == CREDIT
    && (rx.creditEnd == 0 ==> !rx.creditAt.Fin?)
  }

  /** The peer was told of more than half a credit past what the reader took. */
  ghost predicate Told(s: Stream) {
    && (s.life.open ==> 2 * (s.rx.taken + s.rx.credit - s.rx.advertised) < s.rx.credit)
    && (s.rx.ranges == [] ==> Untouched(s.rx))
  }

  ghost predicate Owing(s: Stream) { s.life.gone || (Served(s) && AcksDue(s) && Told(s)) }

  /** The receiving side as it was, but that an ack may have gone out. */
  ghost predicate AckedOnly(a: Stream, b: Stream) {
    && b.life.open == a.life.open && (a.life.gone ==> b.life.gone)
    && (b.rx == a.rx || (a.life.open && b.rx == a.rx.(unacked := 0, advertised := a.rx.taken + a.rx.credit)))
  }

  lemma AckedOnlyOwing(a: Stream, b: Stream)
    requires Owing(a) && AckedOnly(a, b) && a.rx.credit >= CREDIT
    ensures Owing(b)
  {
  }

  lemma SendAckOnly(s: Stream, t: real)
    ensures AckedOnly(s, SendAck(s, t))
  {
  }

  lemma QuietOnly(a: Stream, b: Stream)
    requires RxSame(a, b) && b.life.open == a.life.open
    ensures AckedOnly(a, b)
  {
  }

  // ── delivering ───────────────────────────────────────────────────────────────────────

  /** A free reader is handed what is in order, up to a read's worth, and then is at work. */
  lemma HandsOver(s: Stream)
    requires RxOk(s.rx) && !s.life.gone && s.rx.hasReader && !s.rx.reading
    ensures var b, n := HandOver(s).rx, Min(|Flat(s.rx.held)|, 262144);
            && b.handed == s.rx.handed + Flat(s.rx.held)[..n] && b.taken == s.rx.taken + n
            && (b.reading <==> s.rx.held != []) && (b.held == [] ==> n == |Flat(s.rx.held)|)
  {
    if s.rx.held != [] { FirstBytes(s.rx.held); }
    DropBytesFlat(s.rx.held, Min(|Flat(s.rx.held)|, MAX_READ));
  }

  lemma FirstBytes(ps: seq<seq<byte>>)
    requires ps != [] && |ps[0]| > 0
    ensures |Flat(ps)| > 0
  {
  }

  /** The credit doubles, up to eight times the first, when a whole one was taken in less than two
      round trips; else it stays. */
  ghost predicate Retuned(a: Rx, b: Rx, srtt: real, t: real) {
    if b.taken < a.creditEnd then b.credit == a.credit && b.creditAt == a.creditAt && b.creditEnd == a.creditEnd
    else
      && b.creditAt == Fin(t) && b.creditEnd == b.taken + b.credit
      && (a.creditAt.Fin? && t - a.creditAt.r < srtt + srtt ==> b.credit == Min(a.credit + a.credit, 0x80_0000))
      && (!a.creditAt.Fin? || t - a.creditAt.r >= srtt + srtt ==> b.credit == a.credit)
  }

  lemma TuneExact(s: Stream, t: real)
    ensures Retuned(s.rx, TuneCredit(s, t).rx, s.rtt.srtt, t)
    ensures var u := TuneCredit(s, t);
            u == s.(rx := s.rx.(credit := u.rx.credit, creditAt := u.rx.creditAt, creditEnd := u.rx.creditEnd))
  {
  }

  /** The peer told from `s` to `d`: once half its credit is free, and three times if it had used
      all it knew of. */
  ghost predicate Tells(s: Stream, d: Stream) {
    var free := s.rx.taken + s.rx.credit - s.rx.advertised;
    if s.life.open && free + free >= s.rx.credit then
      && d.rx == s.rx.(advertised := s.rx.taken + s.rx.credit, unacked := 0)
      && |d.wire| == |s.wire| + (if free > 0 && s.rx.furthest >= s.rx.advertised then 3 else 1)
      && (forall i :: |s.wire| <= i < |d.wire| ==>
            d.wire[i].Ack? && d.wire[i].credit == s.rx.taken + s.rx.credit && d.wire[i].ranges == s.rx.ranges)
    else d.wire == s.wire && d.rx == s.rx
  }

  function Tell(s: Stream, t: real): Stream {
    if 2 * (s.rx.taken + s.rx.credit - s.rx.advertised) >= s.rx.credit then SendAck(s, t) else s
  }

  lemma TellExact(s: Stream, t: real)
    requires !s.life.gone
    ensures Tells(s, Tell(s, t)) && Tell(s, t).life.gone == s.life.gone && Tell(s, t).life.open == s.life.open
  {
  }

  /** Delivering: the reader served, the credit tuned, and the peer told. */
  lemma DeliverExact(s: Stream, t: real)
    requires RxOk(s.rx) && !s.life.gone
    ensures var d := Deliver(s, t);
            && Retuned(s.rx, d.rx, s.rtt.srtt, t)
            && (s.rx.hasReader && !s.rx.reading ==>
                  d.rx.handed == s.rx.handed + Flat(s.rx.held)[..Min(|Flat(s.rx.held)|, 262144)]
                  && (d.rx.reading <==> s.rx.held != []))
            && (!s.rx.hasReader || s.rx.reading ==> d.rx.handed == s.rx.handed)
    ensures Deliver(s, t) == Tell(TuneCredit(HandOver(s), t), t) && Tells(TuneCredit(HandOver(s), t), Deliver(s, t))
    ensures TuneCredit(HandOver(s), t).wire == s.wire && Deliver(s, t).life.gone == s.life.gone && Deliver(s, t).life.open == s.life.open
    ensures Deliver(s, t).rx.turnDue == s.rx.turnDue && Deliver(s, t).rx.hasReader == s.rx.hasReader
  {
    hide Flat, DropBytes, SumMap, Good, TuneCredit, SendAck, RxMid, HandOver, RxGrows;
    if s.rx.hasReader && !s.rx.reading { HandsOver(s); }
    HandOverFrame(s);
    var h := HandOver(s);
    TuneExact(h, t);
    TellExact(TuneCredit(h, t), t);
  }

  lemma HandOverFrame(s: Stream)
    ensures var h := HandOver(s);
            && h == s.(rx := s.rx.(handed := h.rx.handed, taken := h.rx.taken, held := h.rx.held, reading := h.rx.reading))
            && (!s.rx.hasReader || s.rx.reading || s.rx.held == [] ==> h == s)
  {
  }

  lemma DeliverOwing(s: Stream, t: real)
    requires RxOk(s.rx) && !s.life.gone && Told(s)
    ensures var d := Deliver(s, t);
            && Served(d) && Told(d) && d.life.gone == s.life.gone && d.life.open == s.life.open
            && d.rx.turnDue == s.rx.turnDue && (d.rx.unacked == s.rx.unacked || d.rx.unacked == 0)
  {
    hide Flat, DropBytes, SumMap, Good, SendAck, Deliver, HandOver, TuneCredit, Tell;
    DeliverExact(s, t);
    HandOverFrame(s);
    TuneExact(HandOver(s), t);
    if s.rx.hasReader && !s.rx.reading { HandsOver(s); }
    if s.rx.ranges == [] { UntouchedHandOver(s); }
  }

  lemma UntouchedHandOver(s: Stream)
    requires Untouched(s.rx)
    ensures HandOver(s) == s
  {
  }

  // ── arrivals ─────────────────────────────────────────────────────────────────────────

  /** A number out of order is acked at once; the next in order waits for the turn, now due. */
  lemma ArrivalAcked(s: Stream, pn: nat, t: real)
    requires s.life.open && !s.life.gone
    ensures var r := Received(s, pn, t);
            && r.rx.turnDue && r.rx.ranges == Record(s.rx.ranges, pn)
            && r.rx.largestAt == (if s.rx.ranges == [] || pn > s.rx.ranges[0].hi then s.life.lastHeard else s.rx.largestAt)
            && (if pn == (if s.rx.ranges == [] then 0 else s.rx.ranges[0].hi + 1) then
                  r.wire == s.wire && r.rx.unacked == s.rx.unacked + 1
                else
                  |r.wire| > |s.wire| && r.wire[|s.wire|].Ack? && r.wire[|s.wire|].ranges == r.rx.ranges && r.rx.unacked == 0)
  {
    hide Record;
  }

  lemma {:induction false} AbsorbFrame(rx: Rx)
    ensures var b := Absorb(rx); b == rx.(held := b.held, ahead := b.ahead, aheadBytes := b.aheadBytes)
    decreases |rx.ahead|
  {
    if End(rx) in rx.ahead { AbsorbFrame(AbsorbOne(rx)); }
  }

  lemma StoreFrame(rx: Rx, offset: nat, bytes: seq<byte>)
    ensures var b := Store(rx, offset, bytes);
            b == rx.(furthest := b.furthest, held := b.held, ahead := b.ahead, aheadBytes := b.aheadBytes)
  {
    hide Absorb;
    var seen := rx.(furthest := Max(rx.furthest, offset + |bytes|));
    AbsorbFrame(seen.(held := seen.held + [bytes]));
  }

  /** A chunk within the credit ends the stream just when what is kept passes two credits, by
      packet bytes or by slices; one past it leaves no trace. */
  lemma ChunkEndsIff(s: Stream, pn: nat, offset: nat, floor: nat, bytes: seq<byte>, t: real)
    requires !s.life.gone
    ensures var u := OnChunk(s, pn, offset, floor, bytes, t);
            if offset + |bytes| > s.rx.taken + s.rx.credit then u == s
            else (u.life.gone <==> u.rx.aheadBytes > 2 * u.rx.credit || (|u.rx.held| + |u.rx.ahead|) * 256 > 2 * u.rx.credit)
  {
    hide Store, Record, Trim;
  }

  lemma {:induction false} TrimEnds(r: seq<Range>, floor: nat)
    ensures var t := Trim(r, floor); |t| > 1 ==> t[|t| - 1].hi >= floor
    decreases |r|
  {
    if |r| > 1 && r[|r| - 1].hi < floor { TrimEnds(r[..|r| - 1], floor); }
  }

  /** A chunk taken forgets every range below the floor its sender gives, but the newest; the number it
      came under is recorded first. */
  lemma ChunkPrunes(s: Stream, pn: nat, offset: nat, floor: nat, bytes: seq<byte>, t: real)
    requires !s.life.gone && offset + |bytes| <= s.rx.taken + s.rx.credit && Good(s.rx.ranges) && |s.rx.ranges| <= MAX_RANGES
    ensures var r := OnChunk(s, pn, offset, floor, bytes, t).rx.ranges;
            && r <= Record(s.rx.ranges, pn) && r != [] && Good(r)
            && forall i :: 0 < i < |r| ==> r[i].hi >= floor
  {
    hide Record, Overrun, Received, Store, Trim, Good;
    var rec := Record(s.rx.ranges, pn);
    RecordDenotes(s.rx.ranges, pn);
    RecordSome(s.rx.ranges, pn);
    TrimDenotes(rec, floor);
    TrimEnds(rec, floor);
    ReceivedRanges(s, pn, t);
    var r := Received(s, pn, t);
    StoreFrame(r.rx.(ranges := Trim(r.rx.ranges, floor)), offset, bytes);
    EndAbove(Trim(rec, floor), floor);
  }

  lemma EndAbove(r: seq<Range>, floor: nat)
    requires Good(r) && (|r| > 1 ==> r[|r| - 1].hi >= floor)
    ensures forall i :: 0 < i < |r| ==> r[i].hi >= floor
  {
  }

  lemma ReceivedRanges(s: Stream, pn: nat, t: real)
    ensures Received(s, pn, t).rx.ranges == Record(s.rx.ranges, pn)
  {
    hide Record;
  }

  lemma ReceivedOwing(s: Stream, pn: nat, t: real)
    requires Owing(s) && !s.life.gone && s.rx.credit >= CREDIT
    ensures var r := Received(s, pn, t);
            Owing(r) && r.rx.turnDue && r.rx.ranges != [] && !r.life.gone && r.life.open == s.life.open
  {
    hide Record;
    assert Record(s.rx.ranges, pn) != [] by { RecordSome(s.rx.ranges, pn); }
  }

  lemma RecordSome(r: seq<Range>, pn: nat)
    ensures Record(r, pn) != []
  {
  }

  lemma ChunkOwing(s: Stream, pn: nat, offset: nat, floor: nat, bytes: seq<byte>, t: real)
    requires Owing(s) && !s.life.gone && s.rx.credit >= CREDIT
    ensures Owing(OnChunk(s, pn, offset, floor, bytes, t))
  {
    hide Store, Received, Overrun;
    ReceivedOwing(s, pn, t);
    var r := Received(s, pn, t);
    StoreFrame(r.rx.(ranges := Trim(r.rx.ranges, floor)), offset, bytes);
  }

  // ── every event ──────────────────────────────────────────────────────────────────────

  lemma OnAckOpen(s: Stream, credit: nat, delay: nat, ranges: seq<Range>, t: real)
    ensures OnAck(s, credit, delay, ranges, t).life.open == s.life.open
  {
    hide AckBody, FlushLoop, Buffered;
    var heard := s.(tx := s.tx.(peerCredit := Max(s.tx.peerCredit, credit)));
    var acked := if ranges == [] then heard else AckBody(heard, delay, ranges, t);
    if ranges != [] { AckBodyFrame(heard, delay, ranges, t); }
    FlushLoopLife(acked, 0, t);
  }

  lemma OnRecoveryOpen(s: Stream, t: real)
    ensures OnRecovery(s, t).life.open == s.life.open
  {
    hide DetectLoss, FlushLoop;
    var woken := s.(life := s.life.(recoveryAt := PosInf));
    LossFrame(woken, t);
    FlushLoopLife(DetectLoss(woken, t), 0, t);
    FlushLoopLife(TimedOut(woken), 2, t);
  }

  lemma TickOnly(s: Stream, t: real)
    ensures AckedOnly(s, Tick(s, t))
  {
  }

  lemma ProbeOnly(s: Stream, t: real)
    ensures AckedOnly(s, SendProbe(s, t)) && AckedOnly(s, StartProbe(s, t)) && AckedOnly(s, EndStream(s, t))
  {
  }

  lemma WakeOwing(s: Stream, t: real)
    requires Owing(s) && s.rx.credit >= CREDIT
    ensures Owing(OnWake(s, t))
  {
    hide Owing, OnRecovery, Tick, SendProbe, EndStream;
    ProbeOnly(s, t);
    AckedOnlyOwing(s, EndStream(s, t));
    TickOnly(s, t);
    AckedOnlyOwing(s, Tick(s, t));
    var ticked := if Le(s.life.liveAt, Fin(t)) then Tick(s, t) else s;
    OnRecoveryRx(ticked, t);
    OnRecoveryOpen(ticked, t);
    QuietOnly(ticked, OnRecovery(ticked, t));
    AckedOnlyOwing(ticked, OnRecovery(ticked, t));
    var recovered := if !ticked.life.gone && Le(ticked.life.recoveryAt, Fin(t)) then OnRecovery(ticked, t) else ticked;
    ProbeOnly(recovered, t);
    AckedOnlyOwing(recovered, SendProbe(recovered, t));
  }

  lemma FlushOwing(s: Stream, probes: nat, t: real)
    requires Owing(s) && s.rx.credit >= CREDIT
    ensures Owing(Flush(s, probes, t)) && Flush(s, probes, t).rx.credit >= CREDIT
  {
    hide Owing, FlushLoop;
    FlushRx(s, probes, t);
    FlushLoopLife(s, probes, t);
    QuietOnly(s, Flush(s, probes, t));
    AckedOnlyOwing(s, Flush(s, probes, t));
  }

  lemma StartOwing(s: Stream, t: real)
    requires Owing(s) && s.rx.credit >= CREDIT
    ensures Owing(Start(s, t))
  {
    hide Flush;
    if !s.life.gone && !s.life.open {
      var up := Opened(s, t);
      var acked := if up.rx.ranges != [] then SendAck(up, t) else up;
      assert Owing(acked);
      FlushOwing(acked, 0, t);
    }
  }

  lemma RepathOwing(s: Stream, rttMs: real, t: real)
    requires Owing(s) && s.rx.credit >= CREDIT
    ensures Owing(Repath(s, rttMs, t))
  {
    hide Flush, StartProbe;
    var m := Forget(s, rttMs, t);
    SendAckOnly(m, t);
    AckedOnlyOwing(m, SendAck(m, t));
    FlushOwing(SendAck(m, t), 0, t);
    var f := Flush(SendAck(m, t), 0, t);
    ProbeOnly(f, t);
    AckedOnlyOwing(f, StartProbe(f, t));
  }

  lemma ReceiveOwing(s: Stream, p: Packet, t: real)
    requires Owing(s) && s.rx.credit >= CREDIT
    ensures Owing(Receive(s, p, t))
  {
    hide OnChunk, OnAck, Received;
    if !s.life.gone {
      var heard := s.(life := s.life.(lastHeard := t));
      assert Owing(heard);
      match p
      case Data(pn, offset, floor, bytes) => ChunkOwing(heard, pn, offset, floor, bytes, t);
      case Ack(credit, delay, ranges) =>
        OnAckRx(heard, credit, delay, ranges, t);
        OnAckOpen(heard, credit, delay, ranges, t);
        QuietOnly(heard, OnAck(heard, credit, delay, ranges, t));
        AckedOnlyOwing(heard, OnAck(heard, credit, delay, ranges, t));
      case Probe(pn) => ReceivedOwing(heard, pn, t);
      case Close =>
    }
  }

  lemma ReaderOwing(s: Stream, t: real)
    requires RxOk(s.rx) && (s.life.gone || (AcksDue(s) && Told(s)))
    ensures Owing(Deliver(s, t))
  {
    hide Deliver, RxMid, Told, Served;
    if s.life.gone { GoneStays(s, t); } else { DeliverOwing(s, t); }
  }

  /** The turn serves the reader and acks all that is owed. */
  lemma TurnOwing(s: Stream, t: real)
    requires RxOk(s.rx) && Owing(s)
    ensures Owing(Turn(s, t))
    ensures !s.life.gone && s.life.open ==> Turn(s, t).rx.unacked == 0
  {
    hide Deliver, RxMid, Told;
    var m := s.(rx := s.rx.(turnDue := false));
    if s.life.gone {
      GoneStays(m, t);
    } else {
      FlaggedOk(s, m);
      DeliverOwing(m, t);
      var d := Deliver(m, t);
      DeliverCredit(m, t);
      if d.rx.unacked > 0 { AckedTold(d, t); }
    }
  }

  lemma AckedTold(s: Stream, t: real)
    requires Told(s) && Served(s) && !s.life.gone && s.rx.credit >= CREDIT
    ensures Told(SendAck(s, t)) && Served(SendAck(s, t)) && (s.life.open ==> SendAck(s, t).rx.unacked == 0)
    ensures SendAck(s, t).life.open == s.life.open && SendAck(s, t).life.gone == s.life.gone
  {
  }

  /** A flag set or cleared changes neither what was received nor what was told. */
  lemma FlaggedOk(s: Stream, m: Stream)
    requires RxOk(s.rx)
    requires m == s.(rx := s.rx.(turnDue := m.rx.turnDue, hasReader := m.rx.hasReader, reading := m.rx.reading))
    ensures RxOk(m.rx) && (Told(s) ==> Told(m))
  {
  }

  lemma DeliverCredit(s: Stream, t: real)
    requires RxOk(s.rx)
    ensures Deliver(s, t).rx.credit >= CREDIT
  {
    HandOverKeeps(s);
    TuneKeeps(HandOver(s), t);
  }

  lemma GoneStays(s: Stream, t: real)
    requires s.life.gone
    ensures Deliver(s, t).life.gone
  {
  }

  /** Every event keeps what is owed: a free reader with bytes in order has a turn due, so has any
      arrival not acked, and the peer knows of more than half a credit ahead of the reader. */
  lemma OwingStep(s: Stream, ev: Event, t: real)
    requires EndOk(s) && Owing(s)
    ensures Owing(Step(s, ev, t))
  {
    hide Owing, SendOk, Flat, SumMap, Good;
    match ev
    case Started => StartOwing(s, t);
    case Written(bytes) =>
      WrittenOwing(s, bytes);
      FlushOwing(s.(tx := s.tx.(said := s.tx.said + bytes)), 0, t);
    case Arrived(p) => ReceiveOwing(s, p, t);
    case Woken => WakeOwing(s, t);
    case TurnEnded => TurnOwing(s, t);
    case ReaderSet => FlagOwing(s, s.(rx := s.rx.(hasReader := true)), t);
    case ReadSettled => FlagOwing(s, s.(rx := s.rx.(reading := false)), t);
    case Moved(rttMs) => RepathOwing(s, rttMs, t);
    case Closing(graceful) => CloseOwing(s, graceful, t);
  }

  lemma FlagOwing(s: Stream, m: Stream, t: real)
    requires RxOk(s.rx) && Owing(s)
    requires m == s.(rx := s.rx.(hasReader := m.rx.hasReader, reading := m.rx.reading))
    ensures Owing(Deliver(m, t))
  {
    hide Deliver, RxMid, Told;
    FlaggedOk(s, m);
    ReaderOwing(m, t);
  }

  lemma WrittenOwing(s: Stream, bytes: seq<byte>)
    requires Owing(s)
    ensures Owing(s.(tx := s.tx.(said := s.tx.said + bytes)))
  {
  }

  lemma CloseOwing(s: Stream, graceful: bool, t: real)
    requires Owing(s)
    ensures Owing(CloseStream(s, graceful, t))
  {
    hide Buffered;
  }

  /** So over every run of an end, whatever arrives. */
  lemma {:induction false} AlwaysOwing(s: Stream, evs: seq<Event>, ts: seq<real>)
    requires EndOk(s) && Owing(s) && |evs| == |ts|
    ensures Owing(After(s, evs, ts))
    decreases |evs|
  {
    hide Owing;
    if evs != [] {
      StepKeeps(s, evs[0], ts[0]);
      OwingStep(s, evs[0], ts[0]);
      AlwaysOwing(Step(s, evs[0], ts[0]), evs[1..], ts[1..]);
    }
  }

  lemma FreshOwing()
    ensures Owing(Fresh())
  {
  }

  // ── nothing stale ────────────────────────────────────────────────────────────────────

  /** With everything seen in order, nothing waits past it. */
  ghost predicate Cleared(s: Stream) { End(s.rx) == s.rx.furthest ==> s.rx.ahead == map[] }

  lemma StoreCleared(rx: Rx, offset: nat, bytes: seq<byte>)
    requires RxOk(rx) && |bytes| > 0 && offset + |bytes| <= rx.taken + rx.credit
    requires End(rx) == rx.furthest ==> rx.ahead == map[]
    ensures var b := Store(rx, offset, bytes); End(b) == b.furthest ==> b.ahead == map[]
  {
    hide Flat, SumMap, Good;
    var seen := rx.(furthest := Max(rx.furthest, offset + |bytes|));
    AbsorbFrame(seen.(held := seen.held + [bytes]));
  }

  lemma ClearedSame(a: Stream, b: Stream)
    requires Cleared(a) && b.rx.taken == a.rx.taken && b.rx.held == a.rx.held && b.rx.ahead == a.rx.ahead && b.rx.furthest == a.rx.furthest
    ensures Cleared(b)
  {
  }

  lemma DeliverCleared(s: Stream, t: real)
    requires RxOk(s.rx) && Cleared(s)
    ensures Cleared(Deliver(s, t))
  {
    hide Flat, SumMap, Good;
    HandOverKeeps(s);
    TuneKeeps(HandOver(s), t);
  }

  lemma ChunkCleared(s: Stream, pn: nat, offset: nat, floor: nat, bytes: seq<byte>, t: real)
    requires RecvOk(s) && bytes != [] && Cleared(s)
    ensures Cleared(OnChunk(s, pn, offset, floor, bytes, t))
  {
    hide Store, Received, Overrun, SumMap;
    if Accepts(s, offset, bytes) {
      ReceivedHears(s, pn, t);
      var r := Received(s, pn, t);
      var pruned := r.rx.(ranges := Trim(r.rx.ranges, floor));
      TrimKeeps(r.rx, floor);
      StoreCleared(pruned, offset, bytes);
    }
  }

  /** Every event keeps it, whatever arrives: bytes once in order are not counted as waiting. */
  lemma ClearedStep(s: Stream, ev: Event, t: real)
    requires EndOk(s) && Cleared(s)
    ensures Cleared(Step(s, ev, t))
  {
    hide SendOk, Cleared, Deliver;
    if ev.TurnEnded? || ev.ReaderSet? || ev.ReadSettled? {
      TurnCleared(s, t);
    } else if ev.Arrived? {
      ReceiveCleared(s, ev.p, t);
    } else {
      QuietBytes(s, ev, t);
      QuietFurthest(s, ev, t);
      ClearedSame(s, Step(s, ev, t));
    }
  }

  lemma TurnCleared(s: Stream, t: real)
    requires RxOk(s.rx) && Cleared(s)
    ensures Cleared(Turn(s, t)) && Cleared(Reader(s, t)) && Cleared(ReadDone(s, t))
  {
    hide Deliver, Cleared, RxMid;
    FlagCleared(s, s.(rx := s.rx.(turnDue := false)), t);
    FlagCleared(s, s.(rx := s.rx.(hasReader := true)), t);
    FlagCleared(s, s.(rx := s.rx.(reading := false)), t);
    var d := Deliver(s.(rx := s.rx.(turnDue := false)), t);
    ClearedSame(d, SendAck(d, t));
  }

  lemma FlagCleared(s: Stream, m: Stream, t: real)
    requires RxOk(s.rx) && Cleared(s)
    requires m == s.(rx := s.rx.(turnDue := m.rx.turnDue, hasReader := m.rx.hasReader, reading := m.rx.reading))
    ensures Cleared(Deliver(m, t))
  {
    hide Deliver;
    FlaggedOk(s, m);
    DeliverCleared(m, t);
  }

  lemma ReceiveCleared(s: Stream, p: Packet, t: real)
    requires RecvOk(s) && Cleared(s)
    ensures Cleared(Receive(s, p, t))
  {
    hide OnChunk, OnAck, Cleared;
    if !s.life.gone {
      var heard := s.(life := s.life.(lastHeard := t));
      ClearedSame(s, heard);
      match p
      case Data(pn, offset, floor, bytes) => if bytes != [] { ChunkCleared(heard, pn, offset, floor, bytes, t); }
      case Ack(credit, delay, ranges) =>
        OnAckRx(heard, credit, delay, ranges, t);
        ClearedSame(heard, OnAck(heard, credit, delay, ranges, t));
      case Probe(pn) =>
        ReceivedHears(heard, pn, t);
        ClearedSame(heard, Received(heard, pn, t));
      case Close => ClearedSame(heard, Fail(heard));
    }
  }

  lemma QuietFurthest(s: Stream, ev: Event, t: real)
    requires !ev.Arrived? && !ev.TurnEnded? && !ev.ReaderSet? && !ev.ReadSettled?
    ensures Step(s, ev, t).rx.furthest == s.rx.furthest
  {
    hide Flush, OnRecovery, SendProbe, EndStream, Buffered;
    match ev
    case Started =>
      var up := Opened(s, t);
      FlushRx(if up.rx.ranges != [] then SendAck(up, t) else up, 0, t);
    case Written(bytes) => SendRx(s, bytes, t);
    case Woken =>
      EndStreamRx(s, t);
      var ticked := if Le(s.life.liveAt, Fin(t)) then Tick(s, t) else s;
      TickFurthest(s, t);
      OnRecoveryRx(ticked, t);
      ProbeFurthest(ticked, t);
      ProbeFurthest(OnRecovery(ticked, t), t);
    case Moved(rttMs) =>
      FlushRx(SendAck(Forget(s, rttMs, t), t), 0, t);
      ProbeFurthest(Flush(SendAck(Forget(s, rttMs, t), t), 0, t), t);
    case Closing(graceful) => CloseSame(s, graceful, t);
  }

  lemma TickFurthest(s: Stream, t: real)
    ensures Tick(s, t).rx.furthest == s.rx.furthest
  {
  }

  lemma ProbeFurthest(s: Stream, t: real)
    ensures SendProbe(s, t).rx == s.rx && StartProbe(s, t).rx == s.rx
  {
  }

  // ── what an ack says ─────────────────────────────────────────────────────────────────

  /** The delay an ack tells of is what passed to within half a millisecond, while it fits. */
  lemma AckDelayRounds(since: real)
    requires 0.0 <= since <= 65535.0
    ensures since - 0.5 <= AckDelay(since) as real <= since + 0.5
  {
  }

  /** So an ack tells how long its newest number has waited, to within half a millisecond. */
  lemma AckTellsDelay(s: Stream, t: real)
    requires s.life.open && !s.life.gone && 0.0 <= t - s.rx.largestAt <= 65535.0
    ensures var q := SendAck(s, t).wire[|s.wire|];
            q.Ack? && t - s.rx.largestAt - 0.5 <= q.delay as real <= t - s.rx.largestAt + 0.5
  {
    AckDelayRounds(t - s.rx.largestAt);
  }
}
