/** What is buffered, and how a stream closes (WASM/transport/src/stream.js:248-290, 455-466): what
    is buffered falls but for a write, which is taken only where it fits, and a graceful close
    ends the stream as the last of it is acked, or ten seconds on. */
module StreamClose {
  import opened Base
  import opened AckRanges
  import opened StreamSpec
  import opened StreamSender
  import opened StreamReceiver
  import opened StreamNetwork
  import opened StreamFlow
  import opened StreamProgress

  // ── what is buffered ─────────────────────────────────────────────────────────────────

  /** Where what is buffered begins. */
  ghost function Low(tx: Tx): int { if OldestChunk(tx) < 0 then tx.nextOffset else OldestChunk(tx) }

  lemma LowIs(tx: Tx, l: int)
    requires forall o :: o in tx.chunks ==> l <= o
    requires if tx.chunks == map[] then l == tx.nextOffset else l >= 0 && l in tx.chunks
    ensures Low(tx) == l
  {
  }

  lemma LowOf(tx: Tx)
    requires ChunksOk(tx) && Tiled(tx)
    ensures Buffered(tx) == |tx.said| - Low(tx) >= 0
    ensures 0 <= Low(tx) <= tx.nextOffset && forall o :: o in tx.chunks ==> Low(tx) <= o
    ensures tx.chunks != map[] ==> Low(tx) in tx.chunks
    ensures tx.chunks == map[] ==> Low(tx) == tx.nextOffset
  {
    ChunksBelow(tx);
    if tx.chunks != map[] { assert tx.chunks.Keys != {}; }
  }

  lemma NextLow(tx: Tx, probe: bool)
    requires TxCore(tx)
    ensures Low(NextChunk(tx, probe).tx) == Low(tx)
  {
    hide SumMap, NumbersOk, Counted;
    LowOf(tx);
    ChunksBelow(tx);
    var n := NextChunk(tx, probe).tx;
    NextChunks(tx, probe);
    LowIs(n, Low(tx));
  }

  /** Finding a chunk adds none below those there are, nor below where fresh ones begin. */
  lemma NextChunks(tx: Tx, probe: bool)
    requires forall o :: o in tx.chunks ==> o < tx.nextOffset
    ensures var n := NextChunk(tx, probe).tx;
            && (forall o :: o in tx.chunks ==> o in n.chunks)
            && (forall o :: o in n.chunks && o !in tx.chunks ==> o == tx.nextOffset || exists x :: x in tx.chunks && x < o)
            && (tx.chunks == map[] && n.chunks != map[] ==> tx.nextOffset in n.chunks)
            && (n.chunks == map[] ==> n.nextOffset == tx.nextOffset)
  {
    hide SumMap;
    var live := LiveLost(tx.lost, tx.chunks);
    var dry := tx.(lost := []);
    if live != [] {
      FitAdds(tx.(lost := live[1..]), live[0]);
    } else if NewBytes(dry) <= 0 && probe && OldestChunk(dry) >= 0 {
      FitAdds(dry, OldestChunk(dry));
    }
  }

  lemma FitAdds(tx: Tx, o: nat)
    requires o in tx.chunks
    ensures var f := Fit(tx, o);
            && (forall x :: x in tx.chunks ==> x in f.chunks)
            && (forall x :: x in f.chunks && x !in tx.chunks ==> o < x)
            && f.nextOffset == tx.nextOffset
  {
    hide SumMap;
    var f, rest := Fit(tx, o), o + tx.packetBytes - DATA_HEADER;
    forall x | x in f.chunks && x !in tx.chunks ensures o < x { assert x == rest; }
  }

  lemma {:induction false} FlushLoopLow(s: Stream, probes: nat, t: real)
    requires SendOk(s)
    ensures var r := FlushLoop(s, probes, t);
            && Low(r.tx) == Low(s.tx) && r.tx.said == s.tx.said && r.life == s.life.(lastSent := r.life.lastSent)
    decreases probes, Max(0, s.cc.window.Floor + 1 - s.tx.bytesInFlight)
  {
    hide Low, TxOk, WireOk, Evolves, SendNext, NextChunk;
    if !(probes == 0 && WindowFull(s)) {
      SendNextLow(s, probes > 0, t);
      SendNextSteps(s, probes > 0, t, Quiet());
      if NextChunk(s.tx, probes > 0).offset >= 0 {
        FlushLoopLow(SendNext(s, probes > 0, t), if probes > 0 then probes - 1 else 0, t);
      }
    }
  }

  lemma SendNextLow(s: Stream, probe: bool, t: real)
    requires SendOk(s)
    ensures var u := SendNext(s, probe, t);
            Low(u.tx) == Low(s.tx) && u.tx.said == s.tx.said && u.life == s.life.(lastSent := u.life.lastSent)
  {
    hide Tiled, ChunksOk, NumbersOk, Counted, CarriedBut, WireOk, SumMap, NextChunk;
    NextLow(s.tx, probe);
    NextFlight(s.tx, probe);
    LowSame(NextChunk(s.tx, probe).tx, SendNext(s, probe, t).tx);
  }

  lemma LowSame(a: Tx, b: Tx)
    requires b.chunks == a.chunks && b.nextOffset == a.nextOffset
    ensures Low(b) == Low(a)
  {
  }

  /** What sending does not change. */
  ghost predicate Steady(a: Stream, b: Stream) {
    && Low(b.tx) == Low(a.tx) && b.tx.said == a.tx.said
    && b.life.closing == a.life.closing && b.life.lingerAt == a.life.lingerAt && b.life.open == a.life.open
  }

  lemma FlushSteady(s: Stream, probes: nat, t: real)
    requires SendOk(s)
    ensures Steady(s, Flush(s, probes, t)) && Flush(s, probes, t).life.gone == s.life.gone
  {
    hide Low, SendOk, FlushLoop;
    FlushLoopLow(s, probes, t);
  }

  lemma SameSteady(a: Stream, b: Stream)
    requires b.tx.chunks == a.tx.chunks && b.tx.nextOffset == a.tx.nextOffset && b.tx.said == a.tx.said
    requires b.life.closing == a.life.closing && b.life.lingerAt == a.life.lingerAt && b.life.open == a.life.open
    ensures Steady(a, b)
  {
    LowSame(a.tx, b.tx);
  }

  lemma {:induction false} AckEachSub(w: Walk, pns: seq<int>, largest: int)
    ensures var u := AckEach(w, pns, largest).tx;
            u.chunks.Keys <= w.tx.chunks.Keys && u.nextOffset == w.tx.nextOffset && u.said == w.tx.said
    decreases |pns|
  {
    if pns != [] { AckEachSub(AckOne(w, pns[0], largest), pns[1..], largest); }
  }

  lemma AckChunks(s: Stream, ranges: seq<Range>)
    requires ranges != []
    ensures var u := Acknowledge(s, ranges).tx;
            u.chunks.Keys <= s.tx.chunks.Keys && u.nextOffset == s.tx.nextOffset && u.said == s.tx.said
  {
    hide AckAll, AckOne;
    var w := Walk(s.tx, s.cc, s.rtt.ptoCount, None);
    WalkVisits(w, ranges, s.tx.nextPn - 1, Min(ranges[0].hi, s.tx.nextPn - 1));
    AckEachSub(w, Visited(ranges, s.tx.nextPn - 1, s.tx.oldestPn), Min(ranges[0].hi, s.tx.nextPn - 1));
  }

  lemma LowUp(a: Tx, b: Tx)
    requires ChunksOk(a) && Tiled(a) && ChunksOk(b) && Tiled(b)
    requires b.chunks.Keys <= a.chunks.Keys && b.nextOffset == a.nextOffset
    ensures Low(b) >= Low(a)
  {
    LowOf(a);
    LowOf(b);
  }

  /** An ack moves on where what is buffered begins, or leaves it. */
  lemma BodyLow(s: Stream, delay: nat, ranges: seq<Range>, t: real)
    requires SendOk(s) && ranges != []
    ensures var u := AckBody(s, delay, ranges, t);
            && Low(u.tx) >= Low(s.tx) && u.tx.said == s.tx.said
            && u.life.closing == s.life.closing && u.life.lingerAt == s.life.lingerAt && u.life.open == s.life.open
            && u.life.gone == s.life.gone
  {
    hide Tiled, ChunksOk, NumbersOk, Counted, CarriedBut, WireOk, Evolves, AckBody, Acknowledge, Low;
    AckChunks(s, ranges);
    AckBodyFrame(s, delay, ranges, t);
    AckBodyKeeps(s, delay, News(0, ranges), t);
    BodyLife(s, delay, ranges, t);
    LowUp(s.tx, AckBody(s, delay, ranges, t).tx);
  }

  lemma BodyLife(s: Stream, delay: nat, ranges: seq<Range>, t: real)
    requires ranges != []
    ensures var u := AckBody(s, delay, ranges, t).life; u == s.life.(probeAt := u.probeAt, lastSent := u.lastSent)
  {
    hide Acknowledge, Exonerate, NamesAny, DetectLoss, SendProbe, AdvanceOldest, Sample;
    var w := AfterWalk(s, ranges);
    var timed := Timed(w, Acknowledge(s, ranges).newest, delay, t);
    LossFrame(timed, t);
    var judged := DetectLoss(timed, t);
    ProbeFrame(judged.(tx := judged.tx.(reprobe := false, probes := [])), t);
  }

  // ── every event ──────────────────────────────────────────────────────────────────────

  /** A closing stream still has something buffered, and a time at which it ends regardless. */
  ghost predicate Lingers(s: Stream) { s.life.gone || !s.life.closing || (Buffered(s.tx) > 0 && s.life.lingerAt.Fin?) }

  ghost predicate Bounded(s: Stream) { Buffered(s.tx) <= MAX_BUFFERED && Lingers(s) }

  /** No more is buffered than was, and a close under way goes on or ends the stream. */
  ghost predicate Drains(a: Stream, b: Stream) {
    && Buffered(b.tx) <= Buffered(a.tx) && (a.life.gone ==> b.life.gone)
    && (b.life.gone || (b.life.closing == a.life.closing && b.life.lingerAt == a.life.lingerAt
                        && (a.life.closing && Buffered(a.tx) > 0 ==> Buffered(b.tx) > 0)))
  }

  lemma DrainsBounded(a: Stream, b: Stream)
    requires Bounded(a) && Drains(a, b)
    ensures Bounded(b)
  {
  }

  lemma SteadyDrains(a: Stream, b: Stream)
    requires Steady(a, b) && (a.life.gone ==> b.life.gone)
    ensures Drains(a, b)
  {
  }

  lemma DrainsOn(a: Stream, b: Stream, c: Stream)
    requires Drains(a, b) && Drains(b, c)
    ensures Drains(a, c)
  {
  }

  /** An ack that leaves a closing stream nothing to wait for ends it. */
  lemma OnAckDrains(s: Stream, credit: nat, delay: nat, ranges: seq<Range>, t: real)
    requires SendOk(s)
    ensures Drains(s, OnAck(s, credit, delay, ranges, t))
    ensures var u := OnAck(s, credit, delay, ranges, t); u.life.closing && Buffered(u.tx) == 0 ==> u.life.gone
  {
    hide Tiled, ChunksOk, Counted, CarriedBut, WireOk, Evolves, AckBody, FlushLoop, Low;
    var h := News(credit, ranges);
    var heard := s.(tx := s.tx.(peerCredit := Max(s.tx.peerCredit, credit)));
    TouchSteps(s, heard, h);
    LowSame(s.tx, heard.tx);
    var acked := if ranges == [] then heard else AckBody(heard, delay, ranges, t);
    if ranges != [] {
      AckBodyKeeps(heard, delay, h, t);
      BodyLow(heard, delay, ranges, t);
    }
    LowOf(s.tx);
    LowOf(acked.tx);
    BufferedCounts(acked.tx);
    FlushSteady(acked, 0, t);
    FlushKeeps(acked, 0, t, h);
    LowOf(Flush(acked, 0, t).tx);
    SettledDrains(s, acked, Flush(acked, 0, t), t);
  }

  /** From an ack's effect: ended if that leaves a closing stream nothing, else flushed. */
  lemma SettledDrains(s: Stream, acked: Stream, f: Stream, t: real)
    requires 0 <= Buffered(acked.tx) <= Buffered(s.tx) && Buffered(f.tx) == Buffered(acked.tx)
    requires acked.life.closing == s.life.closing && acked.life.lingerAt == s.life.lingerAt && acked.life.gone == s.life.gone
    requires f.life.closing == s.life.closing && f.life.lingerAt == s.life.lingerAt && f.life.gone == s.life.gone
    ensures var u := if acked.life.closing && Buffered(acked.tx) == 0 then EndStream(acked, t) else f;
            Drains(s, u) && (u.life.closing && Buffered(u.tx) == 0 ==> u.life.gone)
  {
    hide Buffered;
  }

  lemma OnRecoveryDrains(s: Stream, t: real)
    requires SendOk(s)
    ensures Drains(s, OnRecovery(s, t))
  {
    hide Tiled, ChunksOk, Counted, CarriedBut, WireOk, Evolves, DetectLoss, Flush, Low;
    var woken := s.(life := s.life.(recoveryAt := PosInf));
    SameSteady(s, woken);
    SteadyDrains(s, woken);
    TxSameSteps(s, woken, Quiet());
    DetectLossKeeps(woken, t, Quiet());
    LossFrame(woken, t);
    SameSteady(woken, DetectLoss(woken, t));
    FlushSteady(DetectLoss(woken, t), 0, t);
    SteadyDrains(woken, Flush(DetectLoss(woken, t), 0, t));
    TouchSteps(woken, TimedOut(woken), Quiet());
    SameSteady(woken, TimedOut(woken));
    FlushSteady(TimedOut(woken), 2, t);
    SteadyDrains(woken, Flush(TimedOut(woken), 2, t));
    EndDrains(woken, t);
  }

  lemma EndDrains(s: Stream, t: real)
    ensures Drains(s, EndStream(s, t))
  {
  }

  lemma AckDrains(s: Stream, t: real)
    ensures Drains(s, SendAck(s, t))
  {
    hide Low, Buffered;
    SameSteady(s, SendAck(s, t));
    LowBuffered(s.tx, SendAck(s, t).tx);
  }

  lemma LowBuffered(a: Tx, b: Tx)
    requires b.chunks == a.chunks && b.nextOffset == a.nextOffset && b.said == a.said
    ensures Buffered(b) == Buffered(a)
  {
    LowSame(a, b);
  }

  lemma ProbeFrame(s: Stream, t: real)
    ensures var u := SendProbe(s, t);
            && u.tx == s.tx.(nextPn := u.tx.nextPn, probes := u.tx.probes)
            && u.life == s.life.(probeAt := u.life.probeAt, lastSent := u.life.lastSent)
  {
  }

  lemma ProbeDrains(s: Stream, t: real)
    ensures Drains(s, SendProbe(s, t)) && Drains(s, StartProbe(s, t))
  {
    hide Low, Buffered, SendProbe;
    ProbeFrame(s, t);
    ProbeFrame(s.(tx := s.tx.(probes := [])), t);
    LowBuffered(s.tx, SendProbe(s, t).tx);
    LowBuffered(s.tx, StartProbe(s, t).tx);
  }

  lemma TickDrains(s: Stream, t: real)
    ensures Drains(s, Tick(s, t))
  {
    hide Low, Buffered;
    EndDrains(s, t);
    if !Tick(s, t).life.gone { LowBuffered(s.tx, Tick(s, t).tx); }
  }

  /** A wake ends a closing stream whose time is up. */
  lemma OnWakeDrains(s: Stream, t: real)
    requires SendOk(s)
    ensures Drains(s, OnWake(s, t)) && (Le(s.life.lingerAt, Fin(t)) ==> OnWake(s, t).life.gone)
  {
    hide SendOk, Drains, OnRecovery, Tick, SendProbe, EndStream;
    EndDrains(s, t);
    EndsIt(s, t);
    SameDrains(s);
    TickDrains(s, t);
    TickSame(s, t);
    TxSameSteps(s, s, Quiet());
    TxSameSteps(s, Tick(s, t), Quiet());
    var ticked := if Le(s.life.liveAt, Fin(t)) then Tick(s, t) else s;
    OnRecoveryDrains(ticked, t);
    DrainsOn(s, ticked, OnRecovery(ticked, t));
    var recovered := if !ticked.life.gone && Le(ticked.life.recoveryAt, Fin(t)) then OnRecovery(ticked, t) else ticked;
    ProbeDrains(recovered, t);
    DrainsOn(s, recovered, SendProbe(recovered, t));
  }

  lemma EndsIt(s: Stream, t: real)
    ensures EndStream(s, t).life.gone
  {
  }

  lemma SameDrains(s: Stream)
    ensures Drains(s, s)
  {
  }

  /** Every event but a write, a close and an ack leaves what is buffered as it is, or ends the stream. */
  lemma QuietDrains(s: Stream, ev: Event, t: real)
    requires SendOk(s) && !ev.Written? && !ev.Closing?
    ensures Drains(s, Step(s, ev, t))
  {
    hide SendOk, Low, Flush, OnAck, OnWake, Deliver, OnChunk, Received, SendAck, Drains, StartProbe;
    SameDrains(s);
    match ev
    case Started => StartDrains(s, t);
    case Arrived(p) => ReceiveDrains(s, p, t);
    case Woken => OnWakeDrains(s, t);
    case TurnEnded => TurnDrains(s, t);
    case ReaderSet => TurnDrains(s, t);
    case ReadSettled => TurnDrains(s, t);
    case Moved(rttMs) => RepathDrains(s, rttMs, t);
  }

  lemma StartDrains(s: Stream, t: real)
    requires SendOk(s)
    ensures Drains(s, Start(s, t))
  {
    hide SendOk, Low, Flush;
    if s.life.gone || s.life.open {
      SameDrains(s);
    } else {
      var up := Opened(s, t);
      var acked := if up.rx.ranges != [] then SendAck(up, t) else up;
      SendAckSame(up, t);
      assert TxSame(s, acked);
      TxSameSteps(s, acked, Quiet());
      FlushSteady(acked, 0, t);
      StartLow(s, acked, Flush(acked, 0, t));
    }
  }

  lemma StartLow(s: Stream, acked: Stream, f: Stream)
    requires Steady(acked, f) && acked.tx == s.tx && !s.life.gone && !f.life.gone
    requires acked.life.closing == s.life.closing && acked.life.lingerAt == s.life.lingerAt
    ensures Drains(s, f.(tx := f.tx.(reprobe := true)))
  {
    LowSame(f.tx, f.tx.(reprobe := true));
  }

  lemma ReceiveDrains(s: Stream, p: Packet, t: real)
    requires SendOk(s)
    ensures Drains(s, Receive(s, p, t))
  {
    hide SendOk, OnAck, SumMap, Record, Store;
    if s.life.gone {
      SameDrains(s);
    } else {
      var heard := s.(life := s.life.(lastHeard := t));
      TxSameSteps(s, heard, Quiet());
      SameSteady(s, heard);
      SteadyDrains(s, heard);
      if p.Ack? {
        OnAckDrains(heard, p.credit, p.delay, p.ranges, t);
        DrainsOn(s, heard, OnAck(heard, p.credit, p.delay, p.ranges, t));
      }
    }
  }

  lemma TurnDrains(s: Stream, t: real)
    ensures Drains(s, Turn(s, t)) && Drains(s, Reader(s, t)) && Drains(s, ReadDone(s, t))
  {
    hide Low, HandOver, TuneCredit;
    DeliverDrains(s.(rx := s.rx.(turnDue := false)), t);
    DeliverDrains(s.(rx := s.rx.(hasReader := true)), t);
    DeliverDrains(s.(rx := s.rx.(reading := false)), t);
  }

  lemma DeliverDrains(s: Stream, t: real)
    ensures var d := Deliver(s, t); d.tx == s.tx && d.life == s.life.(lastSent := d.life.lastSent)
  {
  }

  lemma RepathDrains(s: Stream, rttMs: real, t: real)
    requires SendOk(s)
    ensures Drains(s, Repath(s, rttMs, t))
  {
    hide SendOk, Low, Flush, StartProbe;
    if s.life.gone {
      SameDrains(s);
    } else {
      var m := Forget(s, rttMs, t);
      TouchSteps(s, m, Quiet()) by { ForgetTouches(s, rttMs, t); }
      SendAckSame(m, t);
      TxSameSteps(m, SendAck(m, t), Quiet());
      SameSteady(s, SendAck(m, t));
      FlushSteady(SendAck(m, t), 0, t);
      var f := Flush(SendAck(m, t), 0, t);
      SteadyDrains(s, f);
      ProbeDrains(f, t);
      DrainsOn(s, f, StartProbe(f, t));
    }
  }

  lemma ForgetTouches(s: Stream, rttMs: real, t: real)
    requires SendOk(s)
    ensures SendOk(s) && Touches(s.tx, Forget(s, rttMs, t).tx)
  {
  }

  /** A write is refused on a stream ended or closing, or that would then hold more than it may;
      else all of it is buffered. */
  lemma WriteBuffers(s: Stream, bytes: seq<byte>, t: real)
    requires SendOk(s)
    ensures var u := Send(s, bytes, t);
            if !s.life.gone && !s.life.closing && Buffered(s.tx) + |bytes| <= 0x100_0000 then
              u.tx.said == s.tx.said + bytes && Buffered(u.tx) == Buffered(s.tx) + |bytes|
              && u.life.closing == s.life.closing && u.life.gone == s.life.gone
            else u == s
  {
    hide TxOk, WireOk, Evolves, Flush, Low;
    if bytes != [] {
      WriteKeeps(s, bytes);
      var m := s.(tx := s.tx.(said := s.tx.said + bytes));
      FlushSteady(m, 0, t);
      FlushKeeps(m, 0, t, Quiet());
      WroteLow(s, m, Flush(m, 0, t), bytes);
    } else {
      assert s.tx.said + bytes == s.tx.said;
    }
  }

  lemma WroteLow(s: Stream, m: Stream, f: Stream, bytes: seq<byte>)
    requires SendOk(s) && SendOk(f) && m == s.(tx := s.tx.(said := s.tx.said + bytes)) && Steady(m, f)
    ensures Buffered(f.tx) == Buffered(s.tx) + |bytes| && f.tx.said == s.tx.said + bytes
  {
    LowSame(s.tx, m.tx);
  }

  /** A graceful close with something buffered waits for it, for ten seconds; any other ends the
      stream at once. */
  lemma CloseLingers(s: Stream, graceful: bool, t: real)
    requires !s.life.gone && !s.life.closing
    ensures var u := CloseStream(s, graceful, t);
            && u.tx == s.tx
            && (u.life.gone <==> !(graceful && s.life.open && Buffered(s.tx) > 0))
            && (!u.life.gone ==> u.life.closing && u.life.lingerAt == Fin(t + 10000.0) && u.wire == s.wire)
            && (u.life.gone && s.life.open ==> u.wire == s.wire + [Close, Close, Close])
  {
    assert Copies(Close, 3) == [Close, Close, Close];
  }

  /** So over every event, whatever arrives: no more is buffered than a stream may hold, and a
      closing one has something buffered and ends, drained or in time. */
  lemma BoundedStep(s: Stream, ev: Event, t: real)
    requires EndOk(s) && Bounded(s)
    ensures Bounded(Step(s, ev, t))
  {
    hide SendOk, RecvOk, Buffered, OnAck;
    match ev
    case Written(bytes) => WrittenBounded(s, bytes, t);
    case Closing(graceful) => ClosedBounded(s, graceful, t);
    case _ =>
      QuietDrains(s, ev, t);
      DrainsBounded(s, Step(s, ev, t));
  }

  lemma WrittenBounded(s: Stream, bytes: seq<byte>, t: real)
    requires SendOk(s) && Bounded(s)
    ensures Bounded(Send(s, bytes, t))
  {
    hide SendOk, Buffered, Send;
    WriteBuffers(s, bytes, t);
  }

  lemma ClosedBounded(s: Stream, graceful: bool, t: real)
    requires Bounded(s)
    ensures Bounded(CloseStream(s, graceful, t))
  {
    hide Buffered, CloseStream;
    if s.life.gone || s.life.closing { ClosedAlready(s, graceful, t); } else { CloseLingers(s, graceful, t); }
  }

  lemma ClosedAlready(s: Stream, graceful: bool, t: real)
    requires s.life.gone || s.life.closing
    ensures CloseStream(s, graceful, t) == s
  {
  }

  lemma {:induction false} AlwaysBounded(s: Stream, evs: seq<Event>, ts: seq<real>)
    requires EndOk(s) && Bounded(s) && |evs| == |ts|
    ensures Bounded(After(s, evs, ts))
    decreases |evs|
  {
    hide Bounded;
    if evs != [] {
      StepKeeps(s, evs[0], ts[0]);
      BoundedStep(s, evs[0], ts[0]);
      AlwaysBounded(Step(s, evs[0], ts[0]), evs[1..], ts[1..]);
    }
  }

  lemma FreshBounded()
    ensures Bounded(Fresh())
  {
  }
}
