/** The sender's bookkeeping (WASM/transport/src/stream.js:416-647): no stall, the window, the
    packet size, the cuts and their undoing, and the walk over an ack. */
module StreamFlow {
  import opened Base
  import opened AckRanges
  import opened StreamSpec
  import opened StreamSender
  import opened StreamReceiver
  import opened StreamNetwork

  // ── no stall ───────────────────────────────────────────────────────────────────────

  /** A stream that can still send never waits on nothing: while something is not acked, or could
      be sent, something is in flight, and what is in flight has a wake due. One with no path has
      sent nothing. */
  ghost predicate Live(s: Stream) {
    s.life.gone || (
      && (s.tx.chunks != map[] ==> s.tx.inFlight != map[])
      && (s.life.open && NewBytes(s.tx) > 0 ==> s.tx.inFlight != map[])
      && (s.tx.inFlight != map[] ==> Le(s.life.recoveryAt, RecoveryDue(s.rtt)))
      && (!s.life.open ==> s.tx.nextOffset == 0 && s.tx.numbers == map[]))
  }

  /** Finding a chunk only cuts and takes off what is lost. */
  lemma NextFlight(tx: Tx, probe: bool)
    ensures var n := NextChunk(tx, probe).tx;
            n == tx.(bounds := n.bounds, nextOffset := n.nextOffset, chunks := n.chunks, lost := n.lost)
  {
  }

  lemma {:induction false} FlushLoopEnds(s: Stream, probes: nat, t: real)
    ensures var r := FlushLoop(s, probes, t); WindowFull(r) || (r.tx.lost == [] && NewBytes(r.tx) <= 0)
    decreases probes, Max(0, s.cc.window.Floor + 1 - s.tx.bytesInFlight)
  {
    if !(probes == 0 && WindowFull(s)) {
      SendNextRx(s, probes > 0, t);
      if NextChunk(s.tx, probes > 0).offset >= 0 {
        FlushLoopEnds(SendNext(s, probes > 0, t), if probes > 0 then probes - 1 else 0, t);
      }
    }
  }

  /** With nothing in flight, the window, never below two base packets, has room for any
      packet: so a flush that leaves something unacked or sendable leaves something in flight. */
  lemma FlushNeverStalls(s: Stream, probes: nat, t: real)
    requires SendOk(s) && s.life.open && !s.life.gone
    ensures Live(Flush(s, probes, t))
  {
    var r := FlushLoop(s, probes, t);
    FlushLoopKeeps(s, probes, t, Quiet());
    FlushLoopEnds(s, probes, t);
    FlushLoopRx(s, probes, t);
    FlushLoopLife(s, probes, t);
    if r.tx.inFlight == map[] { EmptyFlightHasRoom(r); }
    forall o | o in r.tx.chunks ensures r.tx.inFlight != map[] {
      assert o in r.tx.lost || InAir(r.tx, o);
    }
    ArmCovers(r);
  }

  lemma EmptyFlightHasRoom(r: Stream)
    requires Counted(r.tx) && r.tx.inFlight == map[]
    ensures !WindowFull(r)
  {
    assert SumMap(r.tx.inFlight, SizeOf()) == 0;
  }

  lemma ArmCovers(r: Stream)
    ensures r.life.gone || r.tx.inFlight == map[] || Le(Arm(r).life.recoveryAt, RecoveryDue(r.rtt))
  {
  }

  lemma {:induction false} FlushLoopLife(s: Stream, probes: nat, t: real)
    ensures var r := FlushLoop(s, probes, t); r.life.open == s.life.open && r.life.gone == s.life.gone
    decreases probes, Max(0, s.cc.window.Floor + 1 - s.tx.bytesInFlight)
  {
    if !(probes == 0 && WindowFull(s)) {
      SendNextRx(s, probes > 0, t);
      if NextChunk(s.tx, probes > 0).offset >= 0 {
        FlushLoopLife(SendNext(s, probes > 0, t), if probes > 0 then probes - 1 else 0, t);
      }
    }
  }

  /** Nothing the recovery timer depends on changed. */
  ghost predicate FlowSame(a: Stream, b: Stream) {
    && b.tx == a.tx.(nextPn := b.tx.nextPn, probes := b.tx.probes, reprobe := b.tx.reprobe)
    && b.rtt == a.rtt && b.life.recoveryAt == a.life.recoveryAt && b.life.open == a.life.open
  }

  lemma FlowSameLive(a: Stream, b: Stream)
    requires Live(a) && FlowSame(a, b) && (a.life.gone ==> b.life.gone)
    ensures Live(b)
  {
  }

  // ── an ack, and a path that never opened ──────────────────────────────────────────────

  /** What was written, sent and numbered is as it was, and no chunk was acked. */
  ghost predicate SentSame(a: Tx, b: Tx) {
    && b.said == a.said && b.nextOffset == a.nextOffset && b.numbers == a.numbers
    && b.chunks == a.chunks && b.largestAcked == a.largestAcked && b.nextPn == a.nextPn
    && b.peerCredit == a.peerCredit
  }

  lemma ScanOneFrame(c: Scan, pn: nat, v: Verdict)
    ensures SentSame(c.tx, ScanOne(c, pn, v).tx)
  {
    hide IsLost, ExtMin, ExtMax, Le, Lose;
    if pn in c.tx.inFlight { LoseFrame(c.tx, pn); }
  }

  lemma LoseFrame(tx: Tx, pn: nat)
    requires pn in tx.inFlight
    ensures SentSame(tx, Lose(tx, pn))
  {
  }

  lemma {:induction false} ScanFrame(c: Scan, pn: nat, v: Verdict)
    ensures SentSame(c.tx, ScanFrom(c, pn, v).tx)
    decreases v.largestAcked - pn
  {
    if pn < v.largestAcked {
      ScanOneFrame(c, pn, v);
      ScanFrame(ScanOne(c, pn, v), pn + 1, v);
    }
  }

  lemma {:induction false} AdvanceFrame(tx: Tx)
    ensures AdvanceOldest(tx) == tx.(oldestPn := AdvanceOldest(tx).oldestPn)
    decreases tx.nextPn - tx.oldestPn
  {
    if tx.oldestPn < tx.nextPn && tx.oldestPn !in tx.inFlight { AdvanceFrame(tx.(oldestPn := tx.oldestPn + 1)); }
  }

  lemma LossFrame(s: Stream, t: real)
    ensures SentSame(s.tx, DetectLoss(s, t).tx) && DetectLoss(s, t).life == s.life
  {
    var tx := AdvanceOldest(s.tx);
    AdvanceFrame(s.tx);
    ScanFrame(Scan(tx, PosInf, [], NegInf, PosInf, false), tx.oldestPn, LossVerdict(s, t));
    AdvanceFrame(LossScan(s, t).tx);
  }

  lemma AfterWalkFrame(s: Stream, ranges: seq<Range>)
    requires ranges != []
    ensures var u := AfterWalk(s, ranges);
            u.tx.nextOffset == s.tx.nextOffset && u.tx.numbers == s.tx.numbers
            && u.tx.said == s.tx.said && u.tx.chunks == Acknowledge(s, ranges).tx.chunks
            && u.tx.peerCredit == s.tx.peerCredit
            && u.life.open == s.life.open && u.life.gone == s.life.gone && u.life.closing == s.life.closing
  {
    var w := Acknowledge(s, ranges);
    AckAllFrame(Walk(s.tx, s.cc, s.rtt.ptoCount, None), ranges, s.tx.nextPn - 1, Min(ranges[0].hi, s.tx.nextPn - 1));
    var m := ProbeAcked(s.(tx := w.tx, cc := w.cc, rtt := s.rtt.(ptoCount := w.ptoCount)), ranges).tx;
    AdvanceFrame(m.(largestAcked := Max(m.largestAcked, Min(ranges[0].hi, s.tx.nextPn - 1))));
  }

  lemma AckBodyFrame(s: Stream, delay: nat, ranges: seq<Range>, t: real)
    requires ranges != []
    ensures var u := AckBody(s, delay, ranges, t);
            u.tx.nextOffset == s.tx.nextOffset && u.tx.numbers == s.tx.numbers
            && u.tx.said == s.tx.said && u.tx.chunks == Acknowledge(s, ranges).tx.chunks
            && u.tx.peerCredit == s.tx.peerCredit
            && u.life.open == s.life.open && u.life.gone == s.life.gone
  {
    AfterWalkFrame(s, ranges);
    var timed := Timed(AfterWalk(s, ranges), Acknowledge(s, ranges).newest, delay, t);
    LossFrame(timed, t);
  }

  /** With no path, nothing was sent, so there is nothing to wait on. */
  lemma DormantLive(s: Stream)
    requires TxOk(s.tx) && !s.life.open && s.tx.nextOffset == 0 && s.tx.numbers == map[]
    ensures Live(s)
  {
    ChunksBelow(s.tx);
  }

  lemma ChunksBelow(tx: Tx)
    requires ChunksOk(tx) && Tiled(tx)
    ensures forall o :: o in tx.chunks ==> o < tx.nextOffset
  {
    forall o | o in tx.chunks ensures o < tx.nextOffset { assert Carries(tx, o, tx.chunks[o]); }
  }

  lemma SettleLive(s: Stream, t: real)
    requires SendOk(s) && (!s.life.open ==> s.tx.nextOffset == 0 && s.tx.numbers == map[])
    ensures Live(Flush(s, 0, t)) && Live(EndStream(s, t))
  {
    if s.life.open && !s.life.gone {
      FlushNeverStalls(s, 0, t);
    } else if !s.life.gone {
      DormantLive(s);
    }
  }

  lemma OnAckLive(s: Stream, credit: nat, delay: nat, ranges: seq<Range>, t: real)
    requires SendOk(s) && Live(s) && !s.life.gone
    ensures Live(OnAck(s, credit, delay, ranges, t))
  {
    hide Tiled, ChunksOk, Counted, CarriedBut, WireOk, Evolves;
    var h := News(credit, ranges);
    var heard := s.(tx := s.tx.(peerCredit := Max(s.tx.peerCredit, credit)));
    TouchSteps(s, heard, h);
    var acked := if ranges == [] then heard else AckBody(heard, delay, ranges, t);
    if ranges != [] {
      AckBodyKeeps(heard, delay, h, t);
      AckBodyFrame(heard, delay, ranges, t);
    }
    SettleLive(acked, t);
  }

  lemma OnRecoveryLive(s: Stream, t: real)
    requires SendOk(s) && Live(s) && !s.life.gone
    ensures Live(OnRecovery(s, t))
  {
    var woken := s.(life := s.life.(recoveryAt := PosInf));
    TxSameSteps(s, woken, Quiet());
    if s.tx.inFlight != map[] && !Lt(Fin(t), RecoveryDue(s.rtt)) {
      InFlightOpen(s);
      DetectLossKeeps(woken, t, Quiet());
      LossFrame(woken, t);
      FlushNeverStalls(DetectLoss(woken, t), 0, t);
      TouchSteps(woken, TimedOut(woken), Quiet());
      FlushNeverStalls(TimedOut(woken), 2, t);
    }
  }

  lemma InFlightOpen(s: Stream)
    requires SendOk(s) && Live(s) && !s.life.gone && s.tx.inFlight != map[]
    ensures s.life.open
  {
    var pn :| pn in s.tx.inFlight;
    assert pn in s.tx.numbers;
  }

  lemma ProbeLive(s: Stream, t: real)
    requires Live(s)
    ensures Live(SendProbe(s, t))
  {
    if !s.life.gone { FlowSameLive(s, SendProbe(s, t)); }
  }

  lemma OnWakeLive(s: Stream, t: real)
    requires SendOk(s) && Live(s)
    ensures Live(OnWake(s, t))
  {
    hide SendOk, Live, OnRecovery, SendProbe, EndStream;
    if s.life.gone {
    } else if Le(s.life.lingerAt, Fin(t)) {
      EndedLive(s, t);
    } else {
      var ticked := if Le(s.life.liveAt, Fin(t)) then Tick(s, t) else s;
      TickLive(s, t);
      TickSame(s, t);
      TxSameSteps(s, Tick(s, t), Quiet());
      var recovered := if !ticked.life.gone && Le(ticked.life.recoveryAt, Fin(t)) then OnRecovery(ticked, t) else ticked;
      if !ticked.life.gone { OnRecoveryLive(ticked, t); }
      ProbeLive(recovered, t);
    }
  }

  lemma EndedLive(s: Stream, t: real)
    ensures Live(EndStream(s, t))
  {
  }

  lemma TickLive(s: Stream, t: real)
    requires Live(s) && !s.life.gone
    ensures Live(Tick(s, t))
  {
    var kept := if t - s.life.lastSent >= KEEPALIVE_MS then SendAck(s, t) else s;
    FlowSameLive(s, kept.(life := kept.life.(liveAt := Fin(t + KEEPALIVE_MS))));
  }

  lemma StartLive(s: Stream, t: real)
    requires SendOk(s) && Live(s)
    ensures Live(Start(s, t))
  {
    if !s.life.gone && !s.life.open {
      var up := Opened(s, t);
      TxSameSteps(s, up, Quiet());
      if up.rx.ranges != [] {
        SendAckSame(up, t);
        TxSameSteps(up, SendAck(up, t), Quiet());
        FlushThenProbeLive(SendAck(up, t), t);
      } else {
        FlushThenProbeLive(up, t);
      }
    }
  }

  lemma FlushThenProbeLive(s: Stream, t: real)
    requires SendOk(s) && s.life.open && !s.life.gone
    ensures var f := Flush(s, 0, t); Live(f.(tx := f.tx.(reprobe := true)))
  {
    FlushNeverStalls(s, 0, t);
  }

  lemma RepathLive(s: Stream, rttMs: real, t: real)
    requires SendOk(s) && Live(s)
    ensures Live(Repath(s, rttMs, t))
  {
    if !s.life.gone {
      var m := Forget(s, rttMs, t);
      TouchSteps(s, m, Quiet());
      SendAckSame(m, t);
      TxSameSteps(m, SendAck(m, t), Quiet());
      SettleLive(SendAck(m, t), t);
      var f := Flush(SendAck(m, t), 0, t);
      FlowSameLive(f, StartProbe(f, t));
    }
  }

  lemma SendLive(s: Stream, bytes: seq<byte>, t: real)
    requires SendOk(s) && Live(s)
    ensures Live(Send(s, bytes, t))
  {
    if !(Refuses(s, |bytes|) || bytes == []) {
      WriteKeeps(s, bytes);
      SettleLive(s.(tx := s.tx.(said := s.tx.said + bytes)), t);
    }
  }

  lemma ChunkLive(s: Stream, pn: nat, offset: nat, floor: nat, bytes: seq<byte>, t: real)
    requires Live(s)
    ensures Live(OnChunk(s, pn, offset, floor, bytes, t))
  {
    FlowSameLive(s, Received(s, pn, t));
    FlowSameLive(s, OnChunk(s, pn, offset, floor, bytes, t));
  }

  lemma ReceiveLive(s: Stream, p: Packet, t: real)
    requires SendOk(s) && Live(s)
    ensures Live(Receive(s, p, t))
  {
    if !s.life.gone {
      var heard := s.(life := s.life.(lastHeard := t));
      match p
      case Data(pn, offset, floor, bytes) =>
        ChunkLive(heard, pn, offset, floor, bytes, t);
      case Ack(credit, delay, ranges) =>
        TxSameSteps(s, heard, Quiet());
        OnAckLive(heard, credit, delay, ranges, t);
      case Probe(pn) => FlowSameLive(s, Received(heard, pn, t));
      case Close =>
    }
  }

  /** No event stalls a stream: after each, while something is not acked or could be sent, a
      packet is in flight with a recovery wake due no later than recovery is, or the stream has
      ended. */
  lemma NeverStalls(s: Stream, ev: Event, t: real)
    requires EndOk(s) && Live(s)
    ensures Live(Step(s, ev, t))
  {
    match ev
    case Started => StartLive(s, t);
    case Written(bytes) => SendLive(s, bytes, t);
    case Arrived(p) => ReceiveLive(s, p, t);
    case Woken => OnWakeLive(s, t);
    case TurnEnded => TurnLive(s, t);
    case ReaderSet => TurnLive(s, t);
    case ReadSettled => TurnLive(s, t);
    case Moved(rttMs) => RepathLive(s, rttMs, t);
    case Closing(graceful) => CloseLive(s, graceful, t);
  }

  lemma DeliverLive(s: Stream, t: real)
    requires Live(s)
    ensures Live(Deliver(s, t)) && Live(SendAck(Deliver(s, t), t))
  {
    FlowSameLive(s, Deliver(s, t));
    FlowSameLive(s, SendAck(Deliver(s, t), t));
  }

  lemma TurnLive(s: Stream, t: real)
    requires Live(s)
    ensures Live(Turn(s, t)) && Live(Reader(s, t)) && Live(ReadDone(s, t))
  {
    DeliverLive(s.(rx := s.rx.(turnDue := false)), t);
    DeliverLive(s.(rx := s.rx.(hasReader := true)), t);
    DeliverLive(s.(rx := s.rx.(reading := false)), t);
  }

  lemma CloseLive(s: Stream, graceful: bool, t: real)
    requires Live(s)
    ensures Live(CloseStream(s, graceful, t))
  {
    if !CloseStream(s, graceful, t).life.gone { FlowSameLive(s, CloseStream(s, graceful, t)); }
  }

  /** And so over every run of one end, from the start, whatever arrives. */
  lemma {:induction false} NoRunStalls(s: Stream, evs: seq<Event>, ts: seq<real>)
    requires EndOk(s) && Live(s) && |evs| == |ts|
    ensures Live(After(s, evs, ts)) && EndOk(After(s, evs, ts))
    decreases |evs|
  {
    if evs != [] {
      StepKeeps(s, evs[0], ts[0]);
      NeverStalls(s, evs[0], ts[0]);
      NoRunStalls(Step(s, evs[0], ts[0]), evs[1..], ts[1..]);
    }
  }

  /** Over any run: the bytes in flight are the sum of the packets in flight, every number in
      flight is below the next and not below the oldest waited on, and so is every number used. */
  lemma FlightAccounted(s: Stream, evs: seq<Event>, ts: seq<real>)
    requires EndOk(s) && Live(s) && |evs| == |ts|
    ensures var tx := After(s, evs, ts).tx;
            && tx.bytesInFlight == SumMap(tx.inFlight, SizeOf())
            && (forall pn :: pn in tx.inFlight ==> tx.oldestPn <= pn < tx.nextPn)
            && (forall pn :: pn in tx.numbers ==> pn < tx.nextPn)
  {
    NoRunStalls(s, evs, ts);
  }

  // ── what a flush may send ──────────────────────────────────────────────────────────────

  /** A flush without probes never pushes the flight past the window. */
  lemma {:induction false} FlushWithinWindow(s: Stream, t: real)
    ensures var r := FlushLoop(s, 0, t);
            r.tx.bytesInFlight == s.tx.bytesInFlight || r.tx.bytesInFlight as real <= s.cc.window
    decreases Max(0, s.cc.window.Floor + 1 - s.tx.bytesInFlight)
  {
    hide SendNext, NextChunk, TxSame, RxSame;
    if !WindowFull(s) {
      SendNextRx(s, false, t);
      if NextChunk(s.tx, false).offset >= 0 {
        SendNextFits(s, false, t);
        FlushWithinWindow(SendNext(s, false, t), t);
      } else {
        SendNextIdle(s, false, t);
      }
    }
  }

  lemma SendNextIdle(s: Stream, probe: bool, t: real)
    requires NextChunk(s.tx, probe).offset < 0
    ensures SendNext(s, probe, t).tx.bytesInFlight == s.tx.bytesInFlight
  {
  }

  lemma SendNextFits(s: Stream, probe: bool, t: real)
    requires NextChunk(s.tx, probe).offset >= 0
    ensures var u := SendNext(s, probe, t);
            && u.tx.packetBytes == s.tx.packetBytes
            && u.tx.bytesInFlight <= s.tx.bytesInFlight + s.tx.packetBytes
            && |u.wire| == |s.wire| + 1 && u.wire[..|s.wire|] == s.wire
            && u.wire[|s.wire|].Data? && DATA_HEADER + |u.wire[|s.wire|].bytes| <= s.tx.packetBytes
  {
    hide NextChunk;
    NextFlight(s.tx, probe);
  }

  /** Every DATA packet a flush sends fits the size the path is taken to carry. */
  lemma {:induction false} FlushFitsPath(s: Stream, probes: nat, t: real)
    ensures var r := FlushLoop(s, probes, t);
            && r.tx.packetBytes == s.tx.packetBytes && |s.wire| <= |r.wire|
            && forall i :: |s.wire| <= i < |r.wire| ==>
                 r.wire[i].Data? && DATA_HEADER + |r.wire[i].bytes| <= s.tx.packetBytes
    decreases probes, Max(0, s.cc.window.Floor + 1 - s.tx.bytesInFlight)
  {
    if !(probes == 0 && WindowFull(s)) {
      SendNextRx(s, probes > 0, t);
      if NextChunk(s.tx, probes > 0).offset >= 0 {
        var u := SendNext(s, probes > 0, t);
        var left := if probes > 0 then probes - 1 else 0;
        SendNextFits(s, probes > 0, t);
        FlushFitsPath(u, left, t);
        FlushLoopRx(u, left, t);
        assert FlushLoop(u, left, t).wire[|s.wire|] == u.wire[|s.wire|];
      }
    }
  }

  // ── cuts, and their undoing ────────────────────────────────────────────────────────────

  /** A cut can be undone exactly while some packet it took for lost may still prove late. */
  ghost predicate Episode(cc: Congestion) { cc.undo.Some? <==> cc.suspects != [] }

  /** What a scan has declared lost is what was in flight, and it knows the latest sent. */
  ghost predicate ScanOk(tx: Tx, c: Scan) {
    && (forall pn :: pn in c.tx.inFlight ==> pn in tx.inFlight && tx.inFlight[pn] == c.tx.inFlight[pn])
    && (forall i :: 0 <= i < |c.lost| ==> c.lost[i] in tx.inFlight && c.lost[i] !in c.tx.inFlight)
    && (c.lostSentAt == NegInf
        || exists i :: 0 <= i < |c.lost| && c.lostSentAt == Fin(tx.inFlight[c.lost[i]].time))
  }

  lemma ScanOneOk(tx: Tx, c: Scan, pn: nat, v: Verdict)
    requires ScanOk(tx, c)
    ensures ScanOk(tx, ScanOne(c, pn, v))
  {
    if pn in c.tx.inFlight && IsLost(v, pn, c.tx.inFlight[pn]) {
      var d := ScanOne(c, pn, v);
      assert d.tx == Lose(c.tx, pn) && d.lost == c.lost + [pn];
      assert d.lostSentAt == ExtMax(c.lostSentAt, Fin(tx.inFlight[pn].time));
      ScanLoses(tx, c, d, pn);
    }
  }

  lemma ScanLoses(tx: Tx, c: Scan, d: Scan, pn: nat)
    requires ScanOk(tx, c) && pn in c.tx.inFlight
    requires d.tx == Lose(c.tx, pn) && d.lost == c.lost + [pn]
    requires d.lostSentAt == ExtMax(c.lostSentAt, Fin(tx.inFlight[pn].time))
    ensures ScanOk(tx, d)
  {
    if d.lostSentAt == c.lostSentAt && c.lostSentAt != NegInf {
      var i :| 0 <= i < |c.lost| && c.lostSentAt == Fin(tx.inFlight[c.lost[i]].time);
      assert d.lost[i] == c.lost[i];
    } else {
      assert d.lost[|c.lost|] == pn;
    }
  }

  lemma {:induction false} ScanFromOk(tx: Tx, c: Scan, pn: nat, v: Verdict)
    requires ScanOk(tx, c)
    ensures ScanOk(tx, ScanFrom(c, pn, v))
    decreases v.largestAcked - pn
  {
    if pn < v.largestAcked {
      ScanOneOk(tx, c, pn, v);
      ScanFromOk(tx, ScanOne(c, pn, v), pn + 1, v);
    }
  }

  lemma LossScanOk(s: Stream, t: real)
    ensures ScanOk(s.tx, LossScan(s, t))
  {
    AdvanceFrame(s.tx);
    var tx := AdvanceOldest(s.tx);
    ScanFromOk(s.tx, Scan(tx, PosInf, [], NegInf, PosInf, false), tx.oldestPn, LossVerdict(s, t));
  }

  /** No cut: the window has not fallen, and what counts as lost before it has not moved. */
  ghost predicate Uncut(a: Congestion, b: Congestion) { b.recoveryStart == a.recoveryStart && b.window >= a.window }

  /** Two cuts never answer one loss: what lowers the window, moves the threshold or starts an
      episode is a packet in flight until now and sent after the last cut or path move. Its
      suspects are kept with it, so it can be undone. */
  lemma CutNeedsALaterLoss(s: Stream, t: real)
    requires Episode(s.cc)
    ensures var d := DetectLoss(s, t);
            && Episode(d.cc)
            && (d.cc.recoveryStart == s.cc.recoveryStart || d.cc.recoveryStart == Fin(t))
            && ((Uncut(s.cc, d.cc) && d.cc.window == s.cc.window && d.cc.threshold == s.cc.threshold)
                || exists pn :: pn in s.tx.inFlight && pn !in d.tx.inFlight
                                && Lt(s.cc.recoveryStart, Fin(s.tx.inFlight[pn].time)))
  {
    var c := LossScan(s, t);
    LossScanOk(s, t);
    AdvanceFrame(c.tx);
    if Lt(s.cc.recoveryStart, c.lostSentAt) {
      var i :| 0 <= i < |c.lost| && c.lostSentAt == Fin(s.tx.inFlight[c.lost[i]].time);
      assert c.lost[i] in s.tx.inFlight;
    }
  }

  /** A cut in this step, of a packet in flight before it and sent after the last cut. */
  ghost predicate CutFor(a: Stream, b: Stream, pn: nat) {
    pn in a.tx.inFlight && pn !in b.tx.inFlight && Lt(a.cc.recoveryStart, Fin(a.tx.inFlight[pn].time))
  }

  /** The episode is as it was: no cut, no new suspect, nothing undone. */
  ghost predicate Calm(a: Congestion, b: Congestion) { Uncut(a, b) && b.undo == a.undo && b.suspects == a.suspects }

  lemma {:induction false} FlushLoopCalm(s: Stream, probes: nat, t: real)
    ensures Calm(s.cc, FlushLoop(s, probes, t).cc)
    decreases probes, Max(0, s.cc.window.Floor + 1 - s.tx.bytesInFlight)
  {
    if !(probes == 0 && WindowFull(s)) {
      SendNextRx(s, probes > 0, t);
      if NextChunk(s.tx, probes > 0).offset >= 0 {
        FlushLoopCalm(SendNext(s, probes > 0, t), if probes > 0 then probes - 1 else 0, t);
      }
    }
  }

  lemma FlushCalm(s: Stream, probes: nat, t: real)
    ensures Calm(s.cc, Flush(s, probes, t).cc)
  {
    FlushLoopCalm(s, probes, t);
  }

  lemma {:induction false} AckRunCalm(w: Walk, lo: int, hi: int, largest: int)
    ensures var u := AckRun(w, lo, hi, largest);
            Calm(w.cc, u.cc) && forall pn :: pn in u.tx.inFlight ==> pn in w.tx.inFlight && u.tx.inFlight[pn] == w.tx.inFlight[pn]
    decreases hi + 1 - lo
  {
    if lo <= hi { AckRunCalm(AckOne(w, lo, largest), lo + 1, hi, largest); }
  }

  lemma {:induction false} AckAllCalm(w: Walk, rest: seq<Range>, below: int, largest: int)
    ensures var u := AckAll(w, rest, below, largest);
            Calm(w.cc, u.cc) && forall pn :: pn in u.tx.inFlight ==> pn in w.tx.inFlight && u.tx.inFlight[pn] == w.tx.inFlight[pn]
    decreases |rest|
  {
    if rest != [] {
      var hi, lo := Min(rest[0].hi, below), Max(rest[0].lo, w.tx.oldestPn);
      if lo > hi {
        AckAllCalm(w, rest[1..], below, largest);
      } else {
        AckRunCalm(w, lo, hi, largest);
        AckAllCalm(AckRun(w, lo, hi, largest), rest[1..], lo - 1, largest);
      }
    }
  }

  lemma AfterWalkEpisode(s: Stream, ranges: seq<Range>)
    requires ranges != [] && Episode(s.cc)
    ensures var u := AfterWalk(s, ranges);
            && Episode(u.cc) && Uncut(s.cc, u.cc)
            && forall pn :: pn in u.tx.inFlight ==> pn in s.tx.inFlight && u.tx.inFlight[pn] == s.tx.inFlight[pn]
  {
    var w := Acknowledge(s, ranges);
    AckAllCalm(Walk(s.tx, s.cc, s.rtt.ptoCount, None), ranges, s.tx.nextPn - 1, Min(ranges[0].hi, s.tx.nextPn - 1));
    UndoneOnlyWhenAllWereLate(w.cc, ranges);
    var m := ProbeAcked(s.(tx := w.tx, cc := w.cc, rtt := s.rtt.(ptoCount := w.ptoCount)), ranges).tx;
    AdvanceFrame(m.(largestAcked := Max(m.largestAcked, Min(ranges[0].hi, s.tx.nextPn - 1))));
  }

  /** What a step may do to the episode: cut nothing, or cut for a later loss. */
  ghost predicate EpisodeStep(a: Stream, b: Stream) {
    Episode(b.cc) && (Uncut(a.cc, b.cc) || exists pn :: CutFor(a, b, pn))
  }

  lemma LossEpisode(s: Stream, t: real)
    requires Episode(s.cc)
    ensures EpisodeStep(s, DetectLoss(s, t))
  {
    CutNeedsALaterLoss(s, t);
    var d := DetectLoss(s, t);
    if !Uncut(s.cc, d.cc) {
      var pn :| pn in s.tx.inFlight && pn !in d.tx.inFlight && Lt(s.cc.recoveryStart, Fin(s.tx.inFlight[pn].time));
      assert CutFor(s, d, pn);
    }
  }

  /** Sending after a cut does not put the lost packet back: a resend has a new number. */
  lemma {:induction false} FlushLoopNumbers(s: Stream, probes: nat, t: real, pn: nat)
    requires pn < s.tx.nextPn && pn !in s.tx.inFlight
    ensures pn !in FlushLoop(s, probes, t).tx.inFlight
    decreases probes, Max(0, s.cc.window.Floor + 1 - s.tx.bytesInFlight)
  {
    hide NextChunk;
    NextFlight(s.tx, probes > 0);
    if !(probes == 0 && WindowFull(s)) {
      SendNextRx(s, probes > 0, t);
      if NextChunk(s.tx, probes > 0).offset >= 0 {
        FlushLoopNumbers(SendNext(s, probes > 0, t), if probes > 0 then probes - 1 else 0, t, pn);
      }
    }
  }

  lemma CutThenFlush(s: Stream, d: Stream, probes: nat, t: real)
    requires EpisodeStep(s, d) && NumbersOk(s.tx) && s.tx.nextPn <= d.tx.nextPn
    ensures EpisodeStep(s, Flush(d, probes, t))
  {
    FlushCalm(d, probes, t);
    if !Uncut(s.cc, d.cc) {
      var pn :| CutFor(s, d, pn);
      FlushLoopNumbers(d, probes, t, pn);
      assert CutFor(s, Flush(d, probes, t), pn);
    }
  }

  lemma AckBodyEpisode(s: Stream, delay: nat, ranges: seq<Range>, t: real)
    requires ranges != [] && Episode(s.cc)
    ensures EpisodeStep(s, AckBody(s, delay, ranges, t))
  {
    AfterWalkEpisode(s, ranges);
    var timed := Timed(AfterWalk(s, ranges), Acknowledge(s, ranges).newest, delay, t);
    LossEpisode(timed, t);
    var d := DetectLoss(timed, t);
    var r := Reprobe(d, t);
    assert r.cc == d.cc && r.tx.inFlight == d.tx.inFlight;
    if !Uncut(timed.cc, d.cc) {
      var pn :| CutFor(timed, d, pn);
      assert CutFor(s, r, pn);
    }
  }

  lemma OnAckEpisode(s: Stream, credit: nat, delay: nat, ranges: seq<Range>, t: real)
    requires Episode(s.cc) && SendOk(s)
    ensures EpisodeStep(s, OnAck(s, credit, delay, ranges, t))
  {
    hide Tiled, ChunksOk, Counted, CarriedBut, WireOk, AckBody, Buffered, FlushLoop;
    var heard := s.(tx := s.tx.(peerCredit := Max(s.tx.peerCredit, credit)));
    TouchSteps(s, heard, News(credit, ranges));
    var acked := if ranges == [] then heard else AckBody(heard, delay, ranges, t);
    if ranges != [] {
      AckBodyEpisode(heard, delay, ranges, t);
      AckBodyKeeps(heard, delay, News(credit, ranges), t);
      if !Uncut(s.cc, acked.cc) {
        var pn :| CutFor(heard, acked, pn);
        assert CutFor(s, acked, pn) && CutFor(s, EndStream(acked, t), pn);
      }
    }
    assert EpisodeStep(s, acked);
    CutThenFlush(s, acked, 0, t);
  }

  /** What only wakes a stream leaves its flight and its episode alone. */
  lemma CutForWoken(s: Stream, woken: Stream, d: Stream)
    requires woken == s.(life := woken.life) && EpisodeStep(woken, d)
    ensures EpisodeStep(s, d)
  {
    if !Uncut(s.cc, d.cc) {
      var pn :| CutFor(woken, d, pn);
      assert CutFor(s, d, pn);
    }
  }

  lemma LossFlushEpisode(s: Stream, t: real)
    requires Episode(s.cc) && SendOk(s)
    ensures EpisodeStep(s, Flush(DetectLoss(s, t), 0, t))
  {
    hide Tiled, ChunksOk, Counted, CarriedBut, WireOk, DetectLoss, Flush, EpisodeStep;
    LossEpisode(s, t);
    DetectLossKeeps(s, t, Quiet());
    CutThenFlush(s, DetectLoss(s, t), 0, t);
  }

  lemma OnRecoveryEpisode(s: Stream, t: real)
    requires Episode(s.cc) && SendOk(s)
    ensures EpisodeStep(s, OnRecovery(s, t))
  {
    hide TxOk, WireOk, DetectLoss, Flush, FlushLoop;
    var woken := s.(life := s.life.(recoveryAt := PosInf));
    TxSameSteps(s, woken, Quiet());
    LossFlushEpisode(woken, t);
    CutForWoken(s, woken, Flush(DetectLoss(woken, t), 0, t));
    FlushCalm(TimedOut(woken), 2, t);
  }

  lemma OnWakeEpisode(s: Stream, t: real)
    requires Episode(s.cc) && SendOk(s)
    ensures EpisodeStep(s, OnWake(s, t))
  {
    hide Tiled, ChunksOk, Counted, CarriedBut, WireOk, Evolves;
    if !s.life.gone && !Le(s.life.lingerAt, Fin(t)) {
      var ticked := if Le(s.life.liveAt, Fin(t)) then Tick(s, t) else s;
      TickSame(s, t);
      TxSameSteps(s, Tick(s, t), Quiet());
      assert ticked.cc == s.cc && ticked.tx == s.tx;
      OnRecoveryEpisode(ticked, t);
      var recovered := OnRecovery(ticked, t);
      if !Uncut(s.cc, recovered.cc) {
        var pn :| CutFor(ticked, recovered, pn);
        assert CutFor(s, recovered, pn) && CutFor(s, SendProbe(recovered, t), pn);
      }
    }
  }

  lemma ArrivedEpisode(s: Stream, p: Packet, t: real)
    requires SendOk(s) && Episode(s.cc)
    ensures EpisodeStep(s, Receive(s, p, t))
  {
    hide SendOk, OnAck;
    var heard := s.(life := s.life.(lastHeard := t));
    TxSameSteps(s, heard, Quiet());
    if p.Ack? {
      OnAckEpisode(heard, p.credit, p.delay, p.ranges, t);
      var b := OnAck(heard, p.credit, p.delay, p.ranges, t);
      if !Uncut(s.cc, b.cc) {
        var pn :| CutFor(heard, b, pn);
        assert CutFor(s, b, pn);
      }
    }
  }

  /** Over every event, whatever arrives: a cut can be undone exactly while it has suspects,
      and unless the path moved the window only falls, and an episode only starts, for a packet
      lost now and sent after the last cut. */
  lemma EveryCutIsANewLoss(s: Stream, ev: Event, t: real)
    requires EndOk(s) && Episode(s.cc)
    ensures Episode(Step(s, ev, t).cc)
    ensures !ev.Moved? ==> EpisodeStep(s, Step(s, ev, t))
  {
    hide SendOk, RecvOk;
    match ev
    case Started => FlushCalm(if s.rx.ranges != [] then SendAck(Opened(s, t), t) else Opened(s, t), 0, t);
    case Written(bytes) => FlushCalm(s.(tx := s.tx.(said := s.tx.said + bytes)), 0, t);
    case Arrived(p) => ArrivedEpisode(s, p, t);
    case Woken => OnWakeEpisode(s, t);
    case Moved(rttMs) => FlushCalm(SendAck(Forget(s, rttMs, t), t), 0, t);
    case _ =>
  }

  lemma {:induction false} UnnamedExact(pns: seq<nat>, ranges: seq<Range>)
    ensures forall pn :: pn in Unnamed(pns, ranges) <==> pn in pns && !Names(ranges, pn)
  {
    if pns != [] {
      UnnamedExact(pns[1..], ranges);
      assert forall pn :: pn in pns <==> pn == pns[0] || pn in pns[1..];
    }
  }

  /** A cut is undone exactly when the ack leaves no suspect unnamed, and then the window is
      at least what it was before the cut; otherwise the ack clears just those it names. */
  lemma UndoneOnlyWhenAllWereLate(cc: Congestion, ranges: seq<Range>)
    requires Episode(cc)
    ensures var e := Exonerate(cc, ranges);
            && Episode(e)
            && (forall pn :: pn in e.suspects <==> pn in cc.suspects && !Names(ranges, pn))
            && (cc.undo.Some? ==>
                  (e.undo.None? <==> forall pn :: pn in cc.suspects ==> Names(ranges, pn)))
            && (cc.undo.Some? && e.undo.None? ==>
                  e.window >= cc.undo.value.window && e.threshold == cc.undo.value.threshold)
            && (e.undo.Some? ==> e.undo == cc.undo && e.window == cc.window)
  {
    UnnamedExact(cc.suspects, ranges);
    var left := Unnamed(cc.suspects, ranges);
    if left == [] {
      forall pn | pn in cc.suspects ensures Names(ranges, pn) { assert pn !in left; }
    } else {
      assert left[0] in cc.suspects && !Names(ranges, left[0]);
    }
  }

  /** A tick ends the stream just when its peer is silent too long or given up on; else, with a
      path, something has gone out within a keepalive's time, and the next tick is a whole one off. */
  lemma TickKeepsAlive(s: Stream, t: real)
    requires !s.life.gone
    ensures var u := Tick(s, t);
            && (u.life.gone <==> t - s.life.lastHeard > SILENT_MS || PeerGone(s, t))
            && (!u.life.gone ==> u.life.liveAt == Fin(t + KEEPALIVE_MS) && u.life.lastHeard == s.life.lastHeard)
            && (!u.life.gone && s.life.open ==> t - u.life.lastSent < KEEPALIVE_MS)
            && (!u.life.gone && s.life.open && u.life.lastSent != s.life.lastSent ==> |u.wire| > |s.wire|)
  {
  }

  /** The round trip kept stays within what was measured: the least is never above a sample,
      and the smoothed one never leaves the least and the greater of itself and the sample. */
  lemma SampleBlends(rtt: Rtt, latest: real, delay: real)
    requires delay >= 0.0 && rtt.rttvar >= 0.0 && latest >= 0.0
    requires rtt.minRtt.Fin? ==> rtt.minRtt.r <= rtt.srtt
    ensures var r := Sample(rtt, latest, delay);
            && r.minRtt.Fin? && r.minRtt.r <= latest && r.minRtt.r <= r.srtt && r.rttvar >= 0.0
            && (rtt.minRtt.Fin? ==> r.minRtt.r <= rtt.minRtt.r && r.srtt <= RMax(rtt.srtt, latest))
            && (!rtt.minRtt.Fin? ==> r.srtt == latest)
  {
  }

  // ── the walk over an ack ───────────────────────────────────────────────────────────────

  function UpTo(lo: int, hi: int): seq<int>
    decreases hi + 1 - lo
  {
    if lo > hi then [] else [lo] + UpTo(lo + 1, hi)
  }

  /** The numbers the walk visits, in order. */
  function Visited(ranges: seq<Range>, below: int, oldest: int): seq<int> {
    if ranges == [] then []
    else
      var hi, lo := Min(ranges[0].hi, below), Max(ranges[0].lo, oldest);
      if lo > hi then Visited(ranges[1..], below, oldest)
      else UpTo(lo, hi) + Visited(ranges[1..], lo - 1, oldest)
  }

  function AckEach(w: Walk, pns: seq<int>, largest: int): Walk
    decreases |pns|
  {
    if pns == [] then w else AckEach(AckOne(w, pns[0], largest), pns[1..], largest)
  }

  lemma {:induction false} AckEachConcat(w: Walk, a: seq<int>, b: seq<int>, largest: int)
    ensures AckEach(w, a + b, largest) == AckEach(AckEach(w, a, largest), b, largest)
    decreases |a|
  {
    if a == [] {
      assert a + b == b;
    } else {
      assert (a + b)[1..] == a[1..] + b;
      AckEachConcat(AckOne(w, a[0], largest), a[1..], b, largest);
    }
  }

  lemma {:induction false} AckRunEach(w: Walk, lo: int, hi: int, largest: int)
    ensures AckRun(w, lo, hi, largest) == AckEach(w, UpTo(lo, hi), largest)
    decreases hi + 1 - lo
  {
    if lo <= hi { AckRunEach(AckOne(w, lo, largest), lo + 1, hi, largest); }
  }

  lemma {:induction false} WalkVisits(w: Walk, ranges: seq<Range>, below: int, largest: int)
    ensures AckAll(w, ranges, below, largest) == AckEach(w, Visited(ranges, below, w.tx.oldestPn), largest)
    decreases |ranges|
  {
    if ranges != [] {
      var hi, lo := Min(ranges[0].hi, below), Max(ranges[0].lo, w.tx.oldestPn);
      if lo > hi {
        WalkVisits(w, ranges[1..], below, largest);
      } else {
        var u := AckRun(w, lo, hi, largest);
        AckRunEach(w, lo, hi, largest);
        AckRunFrame(w, lo, hi, largest);
        WalkVisits(u, ranges[1..], lo - 1, largest);
        AckEachConcat(w, UpTo(lo, hi), Visited(ranges[1..], lo - 1, w.tx.oldestPn), largest);
      }
    }
  }

  lemma {:induction false} UpToExact(lo: int, hi: int)
    ensures |UpTo(lo, hi)| == Max(0, hi + 1 - lo)
    ensures forall i :: 0 <= i < |UpTo(lo, hi)| ==> UpTo(lo, hi)[i] == lo + i
    decreases hi + 1 - lo
  {
    if lo <= hi { UpToExact(lo + 1, hi); }
  }

  /** Whatever ranges an ack carries, overlapping or out of order, the walk visits each number
      still waited on at most once, so it takes no more steps than there are such numbers. */
  lemma {:induction false} WalkVisitsOnce(ranges: seq<Range>, below: int, oldest: int)
    ensures var v := Visited(ranges, below, oldest);
            && (forall i :: 0 <= i < |v| ==> oldest <= v[i] <= below)
            && (forall i, j :: 0 <= i < j < |v| ==> v[i] != v[j])
            && |v| <= Max(0, below + 1 - oldest)
    decreases |ranges|
  {
    if ranges != [] {
      var hi, lo := Min(ranges[0].hi, below), Max(ranges[0].lo, oldest);
      if lo > hi {
        WalkVisitsOnce(ranges[1..], below, oldest);
      } else {
        UpToExact(lo, hi);
        WalkVisitsOnce(ranges[1..], lo - 1, oldest);
      }
    }
  }
}
