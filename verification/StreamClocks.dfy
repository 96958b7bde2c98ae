/** A stream's clocks (WASM/transport/src/stream.js:238-300, 610-695): what resets them, and what
    their running out does. */
module StreamClocks {
  import opened Base
  import opened AckRanges
  import opened StreamSpec
  import opened StreamSender
  import opened StreamReceiver
  import opened StreamNetwork
  import opened StreamFlow
  import opened StreamProgress
  import opened StreamWindow
  import opened StreamPath
  import opened StreamClose

  /** What went out was at `t`, and nothing else moved the clock of what went out. */
  ghost predicate SentAt(a: Stream, b: Stream, t: real) {
    && a.wire <= b.wire && b.life.lastHeard == a.life.lastHeard
    && b.life.lastSent == (if |b.wire| > |a.wire| then t else a.life.lastSent)
  }

  lemma SentOn(a: Stream, b: Stream, c: Stream, t: real)
    requires SentAt(a, b, t) && SentAt(b, c, t)
    ensures SentAt(a, c, t)
  {
  }

  lemma StillAt(a: Stream, b: Stream, t: real)
    requires b.wire == a.wire && b.life.lastHeard == a.life.lastHeard && b.life.lastSent == a.life.lastSent
    ensures SentAt(a, b, t)
  {
  }

  lemma SendAckAt(s: Stream, t: real)
    ensures SentAt(s, SendAck(s, t), t) && SentAt(s, EndStream(s, t), t)
  {
  }

  lemma SendNextAt(s: Stream, probe: bool, t: real)
    ensures SentAt(s, SendNext(s, probe, t), t)
  {
  }

  lemma {:induction false} FlushLoopAt(s: Stream, probes: nat, t: real)
    ensures SentAt(s, FlushLoop(s, probes, t), t)
    decreases probes, Max(0, s.cc.window.Floor + 1 - s.tx.bytesInFlight)
  {
    hide SendNext, NextChunk, SentAt;
    if probes == 0 && WindowFull(s) {
      StillAt(s, FlushLoop(s, probes, t), t);
    } else {
      SendNextRx(s, probes > 0, t);
      SendNextAt(s, probes > 0, t);
      if NextChunk(s.tx, probes > 0).offset >= 0 {
        var u, left := SendNext(s, probes > 0, t), if probes > 0 then probes - 1 else 0;
        FlushLoopAt(u, left, t);
        SentOn(s, u, FlushLoop(u, left, t), t);
      }
    }
  }

  lemma FlushAt(s: Stream, probes: nat, t: real)
    ensures SentAt(s, Flush(s, probes, t), t)
  {
    hide FlushLoop;
    FlushLoopAt(s, probes, t);
  }

  lemma ProbeAt(s: Stream, t: real)
    ensures SentAt(s, SendProbe(s, t), t) && SentAt(s, StartProbe(s, t), t)
  {
  }

  lemma BodyAt(s: Stream, delay: nat, ranges: seq<Range>, t: real)
    requires ranges != []
    ensures SentAt(s, AckBody(s, delay, ranges, t), t)
  {
    hide Acknowledge, Exonerate, NamesAny, LossScan, Cut, Suspect, Sample, AdvanceOldest, SendProbe;
    var timed := Timed(AfterWalk(s, ranges), Acknowledge(s, ranges).newest, delay, t);
    var judged := DetectLoss(timed, t);
    StillAt(s, judged, t);
    ProbeAt(judged.(tx := judged.tx.(reprobe := false)), t);
  }

  lemma OnAckAt(s: Stream, credit: nat, delay: nat, ranges: seq<Range>, t: real)
    ensures SentAt(s, OnAck(s, credit, delay, ranges, t), t)
  {
    hide AckBody, Flush, EndStream, Buffered;
    var heard := s.(tx := s.tx.(peerCredit := Max(s.tx.peerCredit, credit)));
    var acked := if ranges == [] then heard else AckBody(heard, delay, ranges, t);
    if ranges != [] { BodyAt(heard, delay, ranges, t); }
    SendAckAt(acked, t);
    FlushAt(acked, 0, t);
    SentOn(heard, acked, EndStream(acked, t), t);
    SentOn(heard, acked, Flush(acked, 0, t), t);
  }

  lemma OnRecoveryAt(s: Stream, t: real)
    ensures SentAt(s, OnRecovery(s, t), t)
  {
    hide DetectLoss, Flush, EndStream, SentAt;
    var woken := s.(life := s.life.(recoveryAt := PosInf));
    StillAt(s, woken, t);
    StillAt(s, Arm(woken), t);
    LossAt(woken, t);
    FlushAt(DetectLoss(woken, t), 0, t);
    SentOn(woken, DetectLoss(woken, t), Flush(DetectLoss(woken, t), 0, t), t);
    StillAt(woken, TimedOut(woken), t);
    FlushAt(TimedOut(woken), 2, t);
    SentOn(woken, TimedOut(woken), Flush(TimedOut(woken), 2, t), t);
    SendAckAt(woken, t);
    SentOn(s, woken, OnRecovery(s, t), t) by { RecoveryOf(s, woken, t); }
  }

  lemma LossAt(s: Stream, t: real)
    ensures SentAt(s, DetectLoss(s, t), t)
  {
    hide LossScan, Cut, Suspect;
  }

  lemma RecoveryOf(s: Stream, woken: Stream, t: real)
    requires woken == s.(life := s.life.(recoveryAt := PosInf)) && SentAt(s, woken, t)
    requires SentAt(woken, Flush(DetectLoss(woken, t), 0, t), t) && SentAt(woken, Flush(TimedOut(woken), 2, t), t)
    requires SentAt(woken, EndStream(woken, t), t)
    ensures SentAt(s, woken, t) && SentAt(woken, OnRecovery(s, t), t)
  {
    hide DetectLoss, Flush, EndStream;
  }

  lemma WakeAt(s: Stream, t: real)
    ensures SentAt(s, OnWake(s, t), t)
  {
    hide OnRecovery, SendProbe, EndStream, SentAt;
    SendAckAt(s, t);
    StillAt(s, s, t);
    TickAt(s, t);
    var ticked := if Le(s.life.liveAt, Fin(t)) then Tick(s, t) else s;
    OnRecoveryAt(ticked, t);
    SentOn(s, ticked, OnRecovery(ticked, t), t);
    var recovered := if !ticked.life.gone && Le(ticked.life.recoveryAt, Fin(t)) then OnRecovery(ticked, t) else ticked;
    ProbeAt(recovered, t);
    SentOn(s, recovered, SendProbe(recovered, t), t);
  }

  lemma TickAt(s: Stream, t: real)
    ensures SentAt(s, Tick(s, t), t)
  {
  }

  lemma DeliverAt(s: Stream, t: real)
    ensures SentAt(s, Deliver(s, t), t)
  {
    hide SendAck, SentAt;
    var u := TuneCredit(HandOver(s), t);
    StillAt(s, u, t) by { TuneStill(s, t); }
    SendAckAt(u, t);
    SentOn(s, u, SendAck(u, t), t);
  }

  lemma TuneStill(s: Stream, t: real)
    ensures var u := TuneCredit(HandOver(s), t); u.wire == s.wire && u.life == s.life
  {
  }

  lemma ArrivesAt(s: Stream, p: Packet, t: real)
    requires !s.life.gone
    ensures var heard := s.(life := s.life.(lastHeard := t)); SentAt(heard, Receive(s, p, t), t)
  {
    hide OnAck, SendAck, Store, Overrun, Record, Trim;
    var heard := s.(life := s.life.(lastHeard := t));
    match p
    case Data(pn, offset, floor, bytes) => ReceivedAt(heard, pn, t);
    case Ack(credit, delay, ranges) => OnAckAt(heard, credit, delay, ranges, t);
    case Probe(pn) => ReceivedAt(heard, pn, t);
    case Close =>
  }

  lemma ReceivedAt(s: Stream, pn: nat, t: real)
    ensures SentAt(s, Received(s, pn, t), t)
  {
    hide Record;
    SendAckAt(Note(s, pn).(rx := Note(s, pn).rx.(turnDue := true)), t);
  }

  lemma StartsAt(s: Stream, t: real)
    requires !s.life.open && !s.life.gone
    ensures var u := Start(s, t); s.wire <= u.wire && u.life.lastHeard == t && u.life.lastSent == t
  {
    hide Flush;
    var up := Opened(s, t);
    var acked := if up.rx.ranges != [] then SendAck(up, t) else up;
    SendAckAt(up, t);
    FlushAt(acked, 0, t);
  }

  lemma MovesAt(s: Stream, rttMs: real, t: real)
    ensures SentAt(s, Repath(s, rttMs, t), t)
  {
    hide Flush, StartProbe, SendAck;
    var m := Forget(s, rttMs, t);
    SendAckAt(m, t);
    FlushAt(SendAck(m, t), 0, t);
    SentOn(m, SendAck(m, t), Flush(SendAck(m, t), 0, t), t);
    var f := Flush(SendAck(m, t), 0, t);
    ProbeAt(f, t);
    SentOn(m, f, StartProbe(f, t), t);
  }

  lemma TurnsAt(s: Stream, t: real)
    ensures SentAt(s, Turn(s, t), t) && SentAt(s, Reader(s, t), t) && SentAt(s, ReadDone(s, t), t)
  {
    hide Deliver, SendAck;
    var m := s.(rx := s.rx.(turnDue := false));
    DeliverAt(m, t);
    SendAckAt(Deliver(m, t), t);
    SentOn(m, Deliver(m, t), SendAck(Deliver(m, t), t), t);
    DeliverAt(s.(rx := s.rx.(hasReader := true)), t);
    DeliverAt(s.(rx := s.rx.(reading := false)), t);
  }

  /** Over every event of a stream with a path: the time last heard is that of the last arrival, and
      the time last sent is that of the last event that put a packet on the path. */
  lemma ClocksRight(s: Stream, ev: Event, t: real)
    requires s.life.open && !s.life.gone
    ensures var u := Step(s, ev, t);
            && u.life.lastHeard == (if ev.Arrived? then t else s.life.lastHeard)
            && s.wire <= u.wire && u.life.lastSent == (if |u.wire| > |s.wire| then t else s.life.lastSent)
  {
    hide Start, Receive, OnWake, Turn, Reader, ReadDone, Repath, Flush, Buffered, EndStream;
    match ev
    case Started => assert Start(s, t) == s by { OpenAlready(s, t); }
    case Written(bytes) => FlushAt(s.(tx := s.tx.(said := s.tx.said + bytes)), 0, t);
    case Arrived(p) => ArrivesAt(s, p, t);
    case Woken => WakeAt(s, t);
    case TurnEnded => TurnsAt(s, t);
    case ReaderSet => TurnsAt(s, t);
    case ReadSettled => TurnsAt(s, t);
    case Moved(rttMs) => MovesAt(s, rttMs, t);
    case Closing(graceful) => SendAckAt(s, t);
  }

  lemma OpenAlready(s: Stream, t: real)
    requires s.life.open
    ensures Start(s, t) == s
  {
  }

  // ── a peer given up on ───────────────────────────────────────────────────────────────

  /** A due timeout gives the peer up, and tells it so three times, just when six have passed in a row
      and nothing was heard for ten seconds; any other sends on. */
  lemma RecoveryGivesUp(s: Stream, t: real)
    requires s.life.open && !s.life.gone && s.tx.inFlight != map[] && s.rtt.lossTime == PosInf && Le(RecoveryDue(s.rtt), Fin(t))
    ensures var u := OnRecovery(s, t);
            && (u.life.gone <==> s.rtt.ptoCount >= 6 && t - s.life.lastHeard > 10000.0)
            && (u.life.gone ==> u.wire == s.wire + [Close, Close, Close])
  {
    hide FlushLoop;
    var woken := s.(life := s.life.(recoveryAt := PosInf));
    FlushLoopLife(TimedOut(woken), 2, t);
    assert Copies(Close, 3) == [Close, Close, Close];
  }

  /** A tick ends the stream just when nothing was heard for thirty seconds, or the peer is given up
      on; else one with a path sends an ack if nothing went out for five. */
  lemma TickExact(s: Stream, t: real)
    requires s.life.open && !s.life.gone
    ensures var u := Tick(s, t);
            && (u.life.gone <==> t - s.life.lastHeard > 30000.0
                                 || (s.tx.inFlight != map[] && s.rtt.ptoCount >= 6 && t - s.life.lastHeard > 10000.0))
            && (!u.life.gone ==>
                  u.life.liveAt == Fin(t + 5000.0)
                  && (if t - s.life.lastSent >= 5000.0 then |u.wire| > |s.wire| && u.wire[|s.wire|].Ack? else u.wire == s.wire))
  {
  }

  // ── probes ───────────────────────────────────────────────────────────────────────────

  /** A probe not answered is sent again a timeout later, three in all, and then no more. */
  lemma ProbeSeries(s: Stream, t: real)
    requires s.life.open && !s.life.gone
    ensures var u := SendProbe(s, t);
            if |s.tx.probes| < 3 then
              && u.wire == s.wire + [Probe(s.tx.nextPn)] && u.tx.probes == s.tx.probes + [s.tx.nextPn]
              && u.life.probeAt == Fin(t + Timeout(s.rtt)) && u.tx.nextPn == s.tx.nextPn + 1
            else u.wire == s.wire && u.tx.probes == [] && u.life.probeAt == PosInf
  {
  }

  lemma RecoveryProbes(s: Stream, t: real)
    ensures var u := OnRecovery(s, t);
            && u.tx.probes == s.tx.probes && u.life.probeAt == s.life.probeAt && u.tx.nextPn >= s.tx.nextPn
            && u.life.open == s.life.open && s.wire <= u.wire && u.life.liveAt == s.life.liveAt && u.rtt.srtt == s.rtt.srtt
            && u.rtt.rttvar == s.rtt.rttvar
  {
    hide DetectLoss, FlushLoop;
    var woken := s.(life := s.life.(recoveryAt := PosInf));
    LossSizes(woken, t);
    LossKeeps(woken, t);
    FlushSizes(DetectLoss(woken, t), 0, t);
    FlushSizes(TimedOut(woken), 2, t);
    FlushLoopClocks(DetectLoss(woken, t), 0, t);
    FlushLoopClocks(TimedOut(woken), 2, t);
    OnRecoveryRx(s, t);
  }

  lemma LossKeeps(s: Stream, t: real)
    ensures DetectLoss(s, t).rtt == s.rtt.(lossTime := DetectLoss(s, t).rtt.lossTime)
  {
    hide LossScan;
  }

  lemma {:induction false} FlushLoopClocks(s: Stream, probes: nat, t: real)
    ensures var r := FlushLoop(s, probes, t);
            && r.life == s.life.(lastSent := r.life.lastSent) && r.tx.nextPn >= s.tx.nextPn
            && r.rtt == s.rtt.(lastSentData := r.rtt.lastSentData)
    decreases probes, Max(0, s.cc.window.Floor + 1 - s.tx.bytesInFlight)
  {
    hide NextChunk;
    NextFlight(s.tx, probes > 0);
    if !(probes == 0 && WindowFull(s)) {
      SendNextRx(s, probes > 0, t);
      if NextChunk(s.tx, probes > 0).offset >= 0 {
        FlushLoopClocks(SendNext(s, probes > 0, t), if probes > 0 then probes - 1 else 0, t);
      }
    }
  }

  /** A wake does what is due of the rest: a due tick comes again a keepalive on, and a due probe is
      sent again, or its series ended, and is not due any more. */
  lemma WakeDoesDue(s: Stream, t: real)
    requires s.life.open && s.rtt.srtt >= 0.0
    ensures var u := OnWake(s, t);
            && (!u.life.gone && Le(s.life.liveAt, Fin(t)) ==> u.life.liveAt == Fin(t + 5000.0))
            && (!u.life.gone && Le(s.life.probeAt, Fin(t)) ==>
                  && Lt(Fin(t), u.life.probeAt)
                  && (if |s.tx.probes| < 3 then exists p :: p in u.wire && p.Probe? && p.pn >= s.tx.nextPn
                      else u.tx.probes == []))
  {
    hide OnRecovery, EndStream, FlushLoop;
    TickProbes(s, t);
    var ticked := if Le(s.life.liveAt, Fin(t)) then Tick(s, t) else s;
    RecoveryProbes(ticked, t);
    var recovered := if !ticked.life.gone && Le(ticked.life.recoveryAt, Fin(t)) then OnRecovery(ticked, t) else ticked;
    EndGone(s, t);
    if !recovered.life.gone && Le(recovered.life.probeAt, Fin(t)) && |s.tx.probes| < 3 {
      assert SendProbe(recovered, t).wire[|recovered.wire|] == Probe(recovered.tx.nextPn);
    }
  }

  lemma TickProbes(s: Stream, t: real)
    ensures var u := Tick(s, t);
            && u.tx == s.tx && u.rtt == s.rtt && u.life.probeAt == s.life.probeAt && u.life.open == s.life.open
            && (!u.life.gone ==> u.life.liveAt == Fin(t + 5000.0))
  {
  }

  lemma EndGone(s: Stream, t: real)
    ensures EndStream(s, t).life.gone
  {
  }
}
