/** Progress of the sending side (WASM/transport/src/stream.js:384-607): the bytes acked never
    fall, an ack that names a packet carrying an unacked chunk raises them, a due timeout sends
    such a packet, and its delivery and the answer's make that ack. So a network that keeps
    delivering drains the stream. */
module StreamProgress {
  import opened Base
  import opened AckRanges
  import opened StreamSpec
  import opened StreamSender
  import opened StreamReceiver
  import opened StreamNetwork
  import opened StreamFlow

  // ── the bytes acked ──────────────────────────────────────────────────────────────────

  function LengthOf(): seq<byte> -> int { (b: seq<byte>) => |b| }

  /** The bytes sent and acked. */
  ghost function Acked(tx: Tx): int { tx.nextOffset - SumMap(tx.chunks, LengthOf()) }

  lemma {:induction false} LengthsCount(m: map<nat, seq<byte>>)
    ensures SumMap(m, LengthOf()) >= 0
    decreases |m|
  {
    if |m| > 0 { LengthsCount(m - {Pick(m)}); }
  }

  lemma OneCounts(m: map<nat, seq<byte>>, k: nat)
    requires k in m
    ensures SumMap(m, LengthOf()) == |m[k]| + SumMap(m - {k}, LengthOf()) >= |m[k]|
  {
    SumMapSplit(m, LengthOf(), k);
    LengthsCount(m - {k});
  }

  /** Never more than was written is acked, and all of it exactly when nothing is buffered. */
  lemma AckedCounts(tx: Tx)
    requires ChunksOk(tx) && Tiled(tx)
    ensures Acked(tx) <= |tx.said|
    ensures Acked(tx) == |tx.said| <==> Buffered(tx) == 0
  {
    LengthsCount(tx.chunks);
    BufferedCounts(tx);
    if tx.chunks != map[] {
      var k :| k in tx.chunks;
      assert Carries(tx, k, tx.chunks[k]);
      OneCounts(tx.chunks, k);
    } else {
      assert SumMap(tx.chunks, LengthOf()) == 0;
    }
  }

  /** A chunk split in two is as long as it was. */
  lemma SplitCounts(m: map<nat, seq<byte>>, o: nat, n: nat)
    requires o in m && n <= |m[o]| && o + n !in m - {o} && n > 0
    ensures SumMap(m[o := m[o][..n]][o + n := m[o][n..]], LengthOf()) == SumMap(m, LengthOf())
  {
    hide SumMap;
    var cut := m[o := m[o][..n]];
    OneCounts(m, o);
    OneCounts(cut, o);
    assert cut - {o} == m - {o};
    SumMapAdd(cut, LengthOf(), o + n, m[o][n..]);
  }

  /** No chunk begins inside another. */
  lemma NoneInside(tx: Tx, o: nat, x: nat)
    requires Tiled(tx) && ChunksOk(tx) && o in tx.chunks && o < x < o + |tx.chunks[o]|
    ensures x !in tx.chunks
  {
    assert x in tx.chunks ==> Carries(tx, x, tx.chunks[x]);
  }

  /** A split moves no byte. */
  lemma FitAcked(tx: Tx, o: nat)
    requires Tiled(tx) && ChunksOk(tx) && o in tx.chunks
    ensures Acked(Fit(tx, o)) == Acked(tx)
  {
    hide SumMap, Tiled, ChunksOk;
    var max := tx.packetBytes - DATA_HEADER;
    if |tx.chunks[o]| > max {
      NoneInside(tx, o, o + max);
      SplitCounts(tx.chunks, o, max);
    }
  }

  lemma CutAcked(tx: Tx)
    requires Tiled(tx) && ChunksOk(tx) && NewBytes(tx) > 0
    ensures Acked(CutNew(tx)) == Acked(tx)
  {
    hide SumMap, Tiled;
    ChunksBelow(tx);
    SumMapAdd(tx.chunks, LengthOf(), tx.nextOffset, tx.said[tx.nextOffset..tx.nextOffset + NewBytes(tx)]);
  }

  lemma NextAcked(tx: Tx, probe: bool)
    requires TxCore(tx)
    ensures Acked(NextChunk(tx, probe).tx) == Acked(tx)
  {
    hide SumMap, Carries, NumbersOk, Counted;
    var live := LiveLost(tx.lost, tx.chunks);
    var dry := tx.(lost := []);
    if live != [] {
      RestChunks(tx, live[1..]);
      FitAcked(tx.(lost := live[1..]), live[0]);
    } else {
      RestChunks(tx, []);
      if NewBytes(dry) > 0 {
        CutAcked(dry);
      } else if probe && OldestChunk(dry) >= 0 {
        FitAcked(dry, OldestChunk(dry));
      }
    }
  }

  lemma RestChunks(tx: Tx, lost: seq<nat>)
    requires Tiled(tx) && ChunksOk(tx)
    ensures Tiled(tx.(lost := lost)) && ChunksOk(tx.(lost := lost)) && Acked(tx.(lost := lost)) == Acked(tx)
  {
    var u := tx.(lost := lost);
    forall o | o in u.chunks ensures Carries(u, o, u.chunks[o]) { assert Carries(tx, o, tx.chunks[o]); }
  }

  lemma SendNextAcked(s: Stream, probe: bool, t: real)
    requires SendOk(s)
    ensures Acked(SendNext(s, probe, t).tx) == Acked(s.tx) && SendNext(s, probe, t).tx.said == s.tx.said
  {
    hide Tiled, ChunksOk, NumbersOk, Counted, CarriedBut, WireOk, SumMap;
    NextAcked(s.tx, probe);
  }

  lemma {:induction false} FlushLoopAcked(s: Stream, probes: nat, t: real)
    requires SendOk(s)
    ensures Acked(FlushLoop(s, probes, t).tx) == Acked(s.tx)
    ensures FlushLoop(s, probes, t).tx.said == s.tx.said
    decreases probes, Max(0, s.cc.window.Floor + 1 - s.tx.bytesInFlight)
  {
    hide SendOk, Evolves, SumMap, SendNext, NextChunk;
    if !(probes == 0 && WindowFull(s)) {
      SendNextAcked(s, probes > 0, t);
      SendNextSteps(s, probes > 0, t, Quiet());
      if NextChunk(s.tx, probes > 0).offset >= 0 {
        FlushLoopAcked(SendNext(s, probes > 0, t), if probes > 0 then probes - 1 else 0, t);
      }
    }
  }

  lemma FlushAcked(s: Stream, probes: nat, t: real)
    requires SendOk(s)
    ensures Acked(Flush(s, probes, t).tx) == Acked(s.tx) && Flush(s, probes, t).tx.said == s.tx.said
  {
    FlushLoopAcked(s, probes, t);
  }

  // ── an ack ───────────────────────────────────────────────────────────────────────────

  ghost predicate Whole(tx: Tx) { forall o :: o in tx.chunks ==> |tx.chunks[o]| > 0 }

  /** Packet `pn` is in flight and what it carries is not acked. */
  ghost predicate Awaited(tx: Tx, pn: int) { pn >= 0 && pn in tx.inFlight && tx.inFlight[pn].offset in tx.chunks }

  lemma AckOneAcked(w: Walk, pn: int, largest: int)
    requires Whole(w.tx)
    ensures var u := AckOne(w, pn, largest).tx;
            && Whole(u) && Acked(u) >= Acked(w.tx) && (Awaited(w.tx, pn) ==> Acked(u) > Acked(w.tx))
            && forall x :: Awaited(w.tx, x) && x != pn ==> Awaited(u, x) || Acked(u) > Acked(w.tx)
  {
    hide SumMap;
    if pn >= 0 && pn in w.tx.inFlight {
      var o := w.tx.inFlight[pn].offset;
      if o in w.tx.chunks {
        OneCounts(w.tx.chunks, o);
      } else {
        assert w.tx.chunks - {o} == w.tx.chunks;
      }
    }
  }

  lemma {:induction false} AckEachAcked(w: Walk, pns: seq<int>, largest: int)
    requires Whole(w.tx)
    ensures var u := AckEach(w, pns, largest).tx;
            Acked(u) >= Acked(w.tx) && forall pn :: pn in pns && Awaited(w.tx, pn) ==> Acked(u) > Acked(w.tx)
    decreases |pns|
  {
    hide Acked, Awaited, Whole, AckOne;
    if pns != [] {
      AckOneAcked(w, pns[0], largest);
      AckEachAcked(AckOne(w, pns[0], largest), pns[1..], largest);
      assert forall pn :: pn in pns ==> pn == pns[0] || pn in pns[1..];
    }
  }

  /** A walk over ranges in order visits every number named that is still waited on. */
  lemma {:induction false} NamedVisited(ranges: seq<Range>, below: int, oldest: int, pn: int)
    requires Good(ranges) && Names(ranges, pn) && oldest <= pn <= below
    ensures pn in Visited(ranges, below, oldest)
    decreases |ranges|
  {
    var k :| 0 <= k < |ranges| && ranges[k].lo <= pn <= ranges[k].hi;
    var hi, lo := Min(ranges[0].hi, below), Max(ranges[0].lo, oldest);
    if k == 0 {
      UpToExact(lo, hi);
      assert UpTo(lo, hi)[pn - lo] == pn;
    } else {
      assert ranges[1..][k - 1] == ranges[k];
      NamedVisited(ranges[1..], if lo > hi then below else lo - 1, oldest, pn);
    }
  }

  /** An ack as a receiver sends it, naming a packet whose chunk is still unacked. */
  ghost predicate Useful(s: Stream, p: Packet) {
    !s.life.gone && p.Ack? && Good(p.ranges) && exists pn :: Names(p.ranges, pn) && Awaited(s.tx, pn)
  }

  lemma WalkAcked(s: Stream, ranges: seq<Range>)
    requires TxOk(s.tx) && ranges != []
    ensures var u := Acknowledge(s, ranges).tx;
            && Acked(u) >= Acked(s.tx)
            && (Good(ranges) ==> forall pn :: Names(ranges, pn) && Awaited(s.tx, pn) ==> Acked(u) > Acked(s.tx))
  {
    hide SumMap, Counted, CarriedBut, Tiled;
    var w := Walk(s.tx, s.cc, s.rtt.ptoCount, None);
    var below, largest := s.tx.nextPn - 1, Min(ranges[0].hi, s.tx.nextPn - 1);
    WalkVisits(w, ranges, below, largest);
    assert Whole(s.tx) by { forall o | o in s.tx.chunks ensures |s.tx.chunks[o]| > 0 { assert Carries(s.tx, o, s.tx.chunks[o]); } }
    AckEachAcked(w, Visited(ranges, below, s.tx.oldestPn), largest);
    if Good(ranges) {
      forall pn | Names(ranges, pn) && Awaited(s.tx, pn) ensures pn in Visited(ranges, below, s.tx.oldestPn) {
        NamedVisited(ranges, below, s.tx.oldestPn, pn);
      }
    }
  }

  lemma OnAckAcked(s: Stream, credit: nat, delay: nat, ranges: seq<Range>, t: real)
    requires SendOk(s)
    ensures var u := OnAck(s, credit, delay, ranges, t).tx;
            && u.said == s.tx.said && Acked(u) >= Acked(s.tx)
            && (Useful(s, Ack(credit, delay, ranges)) ==> Acked(u) > Acked(s.tx))
  {
    hide Tiled, ChunksOk, Counted, CarriedBut, WireOk, Evolves, SumMap, AckBody, FlushLoop, Buffered;
    var h := News(credit, ranges);
    var heard := s.(tx := s.tx.(peerCredit := Max(s.tx.peerCredit, credit)));
    TouchSteps(s, heard, h);
    if ranges == [] {
      FlushAcked(heard, 0, t);
    } else {
      WalkAcked(heard, ranges);
      AckBodyKeeps(heard, delay, h, t);
      AckBodyFrame(heard, delay, ranges, t);
      AckAllFrame(Walk(heard.tx, heard.cc, heard.rtt.ptoCount, None), ranges, heard.tx.nextPn - 1, Min(ranges[0].hi, heard.tx.nextPn - 1));
      FlushAcked(AckBody(heard, delay, ranges, t), 0, t);
    }
  }

  // ── every event ──────────────────────────────────────────────────────────────────────

  lemma AckedSame(a: Tx, b: Tx)
    requires b.nextOffset == a.nextOffset && b.chunks == a.chunks
    ensures Acked(b) == Acked(a)
  {
  }

  lemma SettleAcked(a: Tx, s: Stream, probes: nat, t: real)
    requires SendOk(s) && s.tx.nextOffset == a.nextOffset && s.tx.chunks == a.chunks
    ensures Acked(Flush(s, probes, t).tx) == Acked(a) && Flush(s, probes, t).tx.said == s.tx.said
  {
    AckedSame(a, s.tx);
    FlushAcked(s, probes, t);
  }

  lemma OnRecoveryAcked(s: Stream, t: real)
    requires SendOk(s)
    ensures Acked(OnRecovery(s, t).tx) == Acked(s.tx) && OnRecovery(s, t).tx.said == s.tx.said
  {
    hide Tiled, ChunksOk, Counted, CarriedBut, WireOk, Evolves, DetectLoss, Flush, Acked;
    var woken := s.(life := s.life.(recoveryAt := PosInf));
    TxSameSteps(s, woken, Quiet());
    DetectLossKeeps(woken, t, Quiet());
    LossFrame(woken, t);
    SettleAcked(s.tx, DetectLoss(woken, t), 0, t);
    TouchSteps(woken, TimedOut(woken), Quiet());
    SettleAcked(s.tx, TimedOut(woken), 2, t);
  }

  lemma ProbeAcks(s: Stream, t: real)
    ensures Acked(SendProbe(s, t).tx) == Acked(s.tx) && SendProbe(s, t).tx.said == s.tx.said
  {
    hide SumMap;
    AckedSame(s.tx, SendProbe(s, t).tx);
  }

  lemma OnWakeAcked(s: Stream, t: real)
    requires SendOk(s)
    ensures Acked(OnWake(s, t).tx) == Acked(s.tx) && OnWake(s, t).tx.said == s.tx.said
  {
    hide SendOk, OnRecovery, Acked, Tick, EndStream, SendProbe;
    EndStreamSame(s, t);
    TickSame(s, t);
    TxSameSteps(s, s, Quiet());
    TxSameSteps(s, Tick(s, t), Quiet());
    var ticked := if Le(s.life.liveAt, Fin(t)) then Tick(s, t) else s;
    OnRecoveryAcked(ticked, t);
    ProbeAcks(if !ticked.life.gone && Le(ticked.life.recoveryAt, Fin(t)) then OnRecovery(ticked, t) else ticked, t);
  }

  lemma StartAcked(s: Stream, t: real)
    requires SendOk(s)
    ensures Acked(Start(s, t).tx) == Acked(s.tx) && Start(s, t).tx.said == s.tx.said
  {
    hide SendOk, Flush, Acked;
    var up := Opened(s, t);
    var acked := if up.rx.ranges != [] then SendAck(up, t) else up;
    SendAckSame(up, t);
    assert TxSame(s, acked);
    TxSameSteps(s, acked, Quiet());
    SettleAcked(s.tx, acked, 0, t);
    AckedSame(Flush(acked, 0, t).tx, Flush(acked, 0, t).tx.(reprobe := true));
  }

  lemma RepathAcked(s: Stream, rttMs: real, t: real)
    requires SendOk(s)
    ensures Acked(Repath(s, rttMs, t).tx) == Acked(s.tx) && Repath(s, rttMs, t).tx.said == s.tx.said
  {
    hide Tiled, ChunksOk, Counted, CarriedBut, WireOk, Evolves, Flush, Acked;
    var m := Forget(s, rttMs, t);
    TouchSteps(s, m, Quiet());
    SendAckSame(m, t);
    TxSameSteps(m, SendAck(m, t), Quiet());
    SettleAcked(s.tx, SendAck(m, t), 0, t);
    var f := Flush(SendAck(m, t), 0, t);
    AckedSame(f.tx, StartProbe(f, t).tx);
  }

  lemma SendAcked(s: Stream, bytes: seq<byte>, t: real)
    requires SendOk(s)
    ensures Acked(Send(s, bytes, t).tx) == Acked(s.tx)
  {
    hide TxOk, WireOk, Evolves, Flush, Acked;
    WriteKeeps(s, bytes);
    SettleAcked(s.tx, s.(tx := s.tx.(said := s.tx.said + bytes)), 0, t);
  }

  /** Whatever happens at an end, the bytes acked never fall, and an ack naming a packet whose
      chunk is unacked raises them. Only a write changes what was written. */
  lemma StepAcked(s: Stream, ev: Event, t: real)
    requires EndOk(s)
    ensures var u := Step(s, ev, t).tx;
            && Acked(u) >= Acked(s.tx) && (!ev.Written? ==> u.said == s.tx.said)
            && (ev.Arrived? && Useful(s, ev.p) ==> Acked(u) > Acked(s.tx))
  {
    hide SendOk, RecvOk, Acked;
    match ev
    case Started => StartAcked(s, t);
    case Written(bytes) => SendAcked(s, bytes, t);
    case Arrived(p) =>
      var heard := s.(life := s.life.(lastHeard := t));
      TxSameSteps(s, heard, Quiet());
      match p {
        case Data(pn, offset, floor, bytes) => ReceivedSame(heard, pn, t);
        case Ack(credit, delay, ranges) => OnAckAcked(heard, credit, delay, ranges, t);
        case Probe(pn) => ReceivedSame(heard, pn, t);
        case Close =>
      }
    case Woken => OnWakeAcked(s, t);
    case TurnEnded => TurnSame(s, t);
    case ReaderSet => TurnSame(s, t);
    case ReadSettled => TurnSame(s, t);
    case Moved(rttMs) => RepathAcked(s, rttMs, t);
    case Closing(graceful) => CloseSame(s, graceful, t);
  }

  /** The acks of a run that end `a` could use. */
  ghost function UsefulAcks(w: Pair, acts: seq<Act>): nat
    decreases |acts|
  {
    if acts == [] then 0
    else
      var one := if acts[0].atA && acts[0].ev.Arrived? && Useful(w.a, acts[0].ev.p) then 1 else 0;
      one + UsefulAcks(Apply(w, acts[0]), acts[1..])
  }

  /** Over any run, whatever arrives: each useful ack moves the bytes acked on, and nothing moves
      them back, so as many as there are unacked bytes drain the stream. */
  lemma {:induction false} UsefulAcksDrain(w: Pair, acts: seq<Act>)
    requires EndOk(w.a)
    ensures var u := Run(w, acts).a.tx;
            && Acked(w.a.tx) + UsefulAcks(w, acts) <= Acked(u) <= |u.said|
            && (Acked(w.a.tx) + UsefulAcks(w, acts) >= |u.said| ==> Buffered(u) == 0)
    decreases |acts|
  {
    hide Useful, Acked;
    if acts == [] {
      AckedCounts(w.a.tx);
    } else {
      if acts[0].atA {
        StepAcked(w.a, acts[0].ev, acts[0].t);
        StepKeeps(w.a, acts[0].ev, acts[0].t);
      }
      UsefulAcksDrain(Apply(w, acts[0]), acts[1..]);
    }
  }

  // ── a due timeout sends ──────────────────────────────────────────────────────────────

  /** Something is not acked, or could be sent. */
  ghost predicate Pending(tx: Tx) { tx.chunks != map[] || NewBytes(tx) > 0 }

  lemma PendingFinds(tx: Tx)
    requires Pending(tx)
    ensures NextChunk(tx, true).offset >= 0
  {
    if LiveLost(tx.lost, tx.chunks) == [] && NewBytes(tx) <= 0 {
      assert tx.chunks.Keys != {};
    }
  }

  /** What is in flight and unacked stays so while more is sent. */
  lemma {:induction false} FlushLoopHolds(s: Stream, probes: nat, t: real, pn: int)
    requires Awaited(s.tx, pn) && NumbersOk(s.tx)
    ensures Awaited(FlushLoop(s, probes, t).tx, pn)
    decreases probes, Max(0, s.cc.window.Floor + 1 - s.tx.bytesInFlight)
  {
    hide SumMap;
    if !(probes == 0 && WindowFull(s)) {
      SendNextRx(s, probes > 0, t);
      SendNextHolds(s, probes > 0, t, pn);
      if NextChunk(s.tx, probes > 0).offset >= 0 {
        FlushLoopHolds(SendNext(s, probes > 0, t), if probes > 0 then probes - 1 else 0, t, pn);
      }
    }
  }

  lemma FitHolds(tx: Tx, at: nat, o: nat)
    requires at in tx.chunks && o in tx.chunks
    ensures o in Fit(tx, at).chunks
  {
  }

  lemma NextHolds(tx: Tx, probe: bool, o: nat)
    requires o in tx.chunks
    ensures o in NextChunk(tx, probe).tx.chunks
  {
    hide Fit, SumMap;
    var live := LiveLost(tx.lost, tx.chunks);
    var dry := tx.(lost := []);
    if live != [] {
      FitHolds(tx.(lost := live[1..]), live[0], o);
    } else if NewBytes(dry) <= 0 && probe && OldestChunk(dry) >= 0 {
      FitHolds(dry, OldestChunk(dry), o);
    }
  }

  lemma SendNextHolds(s: Stream, probe: bool, t: real, pn: int)
    requires Awaited(s.tx, pn) && NumbersOk(s.tx)
    ensures Awaited(SendNext(s, probe, t).tx, pn) && NumbersOk(SendNext(s, probe, t).tx)
  {
    hide NextChunk;
    NextFlight(s.tx, probe);
    NextHolds(s.tx, probe, s.tx.inFlight[pn].offset);
  }

  /** A DATA packet sent between `a` and `b`, newer than any before it, that `b` awaits. */
  ghost predicate SentNew(a: Stream, b: Stream, p: Packet) {
    p.Data? && p in b.wire && p.pn >= a.tx.nextPn && Awaited(b.tx, p.pn)
  }

  /** A probe sends whatever the window, and awaits what it sent. */
  lemma FlushSends(s: Stream, t: real)
    requires SendOk(s) && Pending(s.tx)
    ensures exists p :: SentNew(s, FlushLoop(s, 2, t), p)
  {
    hide Tiled, ChunksOk, Counted, CarriedBut, WireOk, Evolves, SumMap;
    PendingFinds(s.tx);
    SendNextRx(s, true, t);
    var u := SendNext(s, true, t);
    SendNextSteps(s, true, t, Quiet());
    var n := NextChunk(s.tx, true);
    var p := Data(s.tx.nextPn, n.offset, SendFloor(n.tx), n.tx.chunks[n.offset]);
    SendsIt(s, t);
    FlushLoopHolds(u, 1, t, s.tx.nextPn);
    FlushLoopRx(u, 1, t);
    assert SentNew(s, FlushLoop(s, 2, t), p);
  }

  lemma SendsIt(s: Stream, t: real)
    requires NextChunk(s.tx, true).offset >= 0
    ensures var n := NextChunk(s.tx, true);
            var u := SendNext(s, true, t);
            Awaited(u.tx, s.tx.nextPn) && Data(s.tx.nextPn, n.offset, SendFloor(n.tx), n.tx.chunks[n.offset]) in u.wire
  {
    NextFrame(s.tx, true);
    var u := SendNext(s, true, t);
    assert u.wire[|s.wire|] in u.wire;
  }

  lemma NextFrame(tx: Tx, probe: bool)
    ensures NextChunk(tx, probe).tx.nextPn == tx.nextPn
  {
  }

  /** The recovery wake is due, by timeout, and the stream is not to end at it. */
  ghost predicate TimeoutDue(s: Stream, t: real) {
    && !s.life.gone && !Le(s.life.lingerAt, Fin(t)) && t - s.life.lastHeard <= SILENT_MS && !PeerGone(s, t)
    && s.rtt.lossTime == PosInf && Le(RecoveryDue(s.rtt), Fin(t)) && s.life.open
  }

  lemma TimedOutSends(s: Stream, t: real)
    requires SendOk(s) && Live(s) && Pending(s.tx) && TimeoutDue(s, t)
    ensures var u := OnRecovery(s, t); !u.life.gone && exists p :: SentNew(s, u, p)
  {
    hide Tiled, ChunksOk, Counted, CarriedBut, WireOk, Evolves, SumMap;
    var woken := s.(life := s.life.(recoveryAt := PosInf));
    TxSameSteps(s, woken, Quiet());
    TouchSteps(woken, TimedOut(woken), Quiet());
    FlushSends(TimedOut(woken), t);
    FlushLoopLife(TimedOut(woken), 2, t);
    var p :| SentNew(TimedOut(woken), FlushLoop(TimedOut(woken), 2, t), p);
    assert SentNew(s, OnRecovery(s, t), p);
  }

  /** While something is not acked or could be sent, a wake at which the timeout is due sends a
      packet with an unacked chunk, under a new number. */
  lemma DueTimeoutSends(s: Stream, t: real)
    requires EndOk(s) && Live(s) && Pending(s.tx) && TimeoutDue(s, t)
    ensures var u := OnWake(s, t); !u.life.gone && exists p :: SentNew(s, u, p)
  {
    hide SendOk, RecvOk, OnRecovery, NewBytes;
    var ticked := if Le(s.life.liveAt, Fin(t)) then Tick(s, t) else s;
    TickSame(s, t);
    TickLive(s, t);
    TxSameSteps(s, Tick(s, t), Quiet());
    TxSameSteps(s, s, Quiet());
    assert ticked.tx == s.tx && TimeoutDue(ticked, t);
    TimedOutSends(ticked, t);
    var p :| SentNew(ticked, OnRecovery(ticked, t), p);
    assert SentNew(s, OnWake(s, t), p);
  }

  // ── what arrives is acked ────────────────────────────────────────────────────────────

  /** The newest number heads the ranges, and stays there whatever is trimmed. */
  lemma NewestLeads(r: seq<Range>, pn: nat, floor: nat)
    requires Good(r) && |r| <= MAX_RANGES && pn > Largest(r)
    ensures Good(Record(r, pn)) && Names(Record(r, pn), pn)
    ensures Good(Trim(Record(r, pn), floor)) && Names(Trim(Record(r, pn), floor), pn)
  {
    RecordDenotes(r, pn);
    TrimDenotes(Record(r, pn), floor);
    var lead := Record(r, pn)[0];
    assert lead.lo <= pn <= lead.hi;
    assert Trim(Record(r, pn), floor)[0] == lead;
  }

  /** An ack on the path, in order, that names `pn`. */
  ghost predicate Answers(s: Stream, q: Packet, pn: int) {
    q in s.wire && q.Ack? && Good(q.ranges) && Names(q.ranges, pn)
  }

  lemma AckAnswers(s: Stream, t: real, pn: int)
    requires s.life.open && !s.life.gone && Good(s.rx.ranges) && Names(s.rx.ranges, pn)
    ensures exists q :: Answers(SendAck(s, t), q, pn)
  {
    var u := SendAck(s, t);
    var q := u.wire[|s.wire|];
    assert q in u.wire;
    assert Answers(u, q, pn);
  }

  /** What a new chunk leaves behind: an ack sent at once, or one owed. */
  ghost predicate Owed(s: Stream, pn: int) {
    && s.life.open && !s.life.gone
    && ((exists q :: Answers(s, q, pn)) || (s.rx.unacked > 0 && Good(s.rx.ranges) && Names(s.rx.ranges, pn)))
  }

  lemma RangesOk(b: Stream)
    requires RecvOk(b)
    ensures Good(b.rx.ranges) && |b.rx.ranges| <= MAX_RANGES
  {
  }

  lemma ArrivalOwed(b: Stream, p: Packet, t: real)
    requires RecvOk(b) && b.life.open && p.Data? && p.bytes != [] && Accepts(b, p.offset, p.bytes)
    requires p.pn > Largest(b.rx.ranges) && !Receive(b, p, t).life.gone
    ensures Owed(Receive(b, p, t), p.pn)
  {
    hide Store, Record, Trim, Overrun, RxOk;
    RangesOk(b);
    var heard := b.(life := b.life.(lastHeard := t));
    var noted := Note(heard, p.pn).(rx := Note(heard, p.pn).rx.(turnDue := true));
    NewestLeads(b.rx.ranges, p.pn, p.floor);
    var r := Received(heard, p.pn, t);
    if p.pn != Largest(b.rx.ranges) + 1 {
      AckAnswers(noted, t, p.pn);
      var q :| Answers(r, q, p.pn);
      assert Answers(Receive(b, p, t), q, p.pn);
    } else {
      StoreCounts(r.rx.(ranges := Trim(r.rx.ranges, p.floor)), p.offset, p.bytes);
    }
  }

  lemma {:induction false} AbsorbCounts(rx: Rx)
    ensures Absorb(rx).ranges == rx.ranges && Absorb(rx).unacked == rx.unacked
    decreases |rx.ahead|
  {
    if End(rx) in rx.ahead { AbsorbCounts(AbsorbOne(rx)); }
  }

  lemma StoreCounts(rx: Rx, offset: nat, bytes: seq<byte>)
    ensures Store(rx, offset, bytes).ranges == rx.ranges && Store(rx, offset, bytes).unacked == rx.unacked
  {
    var seen := rx.(furthest := Max(rx.furthest, offset + |bytes|));
    AbsorbCounts(seen.(held := seen.held + [bytes]));
  }

  lemma AnswersStay(s: Stream, u: Stream, pn: int)
    requires s.wire <= u.wire && exists q :: Answers(s, q, pn)
    ensures exists q :: Answers(u, q, pn)
  {
    var q :| Answers(s, q, pn);
    assert Answers(u, q, pn);
  }

  /** With the turn the ack is on the path. */
  lemma TurnAnswers(s: Stream, pn: int, t: real)
    requires Owed(s, pn)
    ensures exists q :: Answers(Turn(s, t), q, pn)
  {
    var m := s.(rx := s.rx.(turnDue := false));
    var tuned := TuneCredit(HandOver(m), t);
    var d := Deliver(m, t);
    DeliverSame(m, t);
    SendAckSame(d, t);
    if exists q :: Answers(s, q, pn) {
      AnswersStay(s, Turn(s, t), pn);
    } else {
      assert tuned.rx.ranges == s.rx.ranges && tuned.rx.unacked == s.rx.unacked && tuned.life == s.life;
      AckAnswers(tuned, t, pn);
      if d == SendAck(tuned, t) {
        AnswersStay(d, Turn(s, t), pn);
      } else {
        var q :| Answers(SendAck(tuned, t), q, pn);
        assert d == tuned && d.rx.unacked > 0;
        assert Turn(s, t) == SendAck(tuned, t);
      }
    }
  }

  // ── a round ──────────────────────────────────────────────────────────────────────────

  /** One packet each way: a wake of `a` at `wake`, `p` delivered, `b`'s turn, `q` delivered. */
  datatype Round = Round(wake: real, p: Packet, arrive: real, turn: real, q: Packet, back: real)

  function Acts(r: Round): seq<Act> {
    [Act(true, Woken, r.wake), Act(false, Arrived(r.p), r.arrive), Act(false, TurnEnded, r.turn), Act(true, Arrived(r.q), r.back)]
  }

  /** Both ends are up and `a` has something to send, with its timeout due. */
  ghost predicate Ready(w: Pair, t: real) {
    Linked(w.a, w.b) && Live(w.a) && Pending(w.a.tx) && TimeoutDue(w.a, t) && w.b.life.open && !w.b.life.gone
  }

  /** The path carries one of the packets the wake sends, and an ack of it. */
  ghost predicate Delivers(w: Pair, r: Round) {
    var a, b := OnWake(w.a, r.wake), Receive(w.b, r.p, r.arrive);
    SentNew(w.a, a, r.p) && !b.life.gone && Answers(Turn(b, r.turn), r.q, r.p.pn)
  }

  /** A fresh packet is newer than all the peer has, is not empty, and fits its credit. */
  lemma NewIsNews(a: Stream, u: Stream, b: Stream, p: Packet)
    requires Linked(a, b) && Linked(u, b) && SentNew(a, u, p)
    ensures p.pn > Largest(b.rx.ranges) && p.bytes != [] && Accepts(b, p.offset, p.bytes)
  {
    assert PacketOk(u.tx, p);
    if b.rx.ranges != [] {
      assert b.rx.ranges[0].lo <= Largest(b.rx.ranges) <= b.rx.ranges[0].hi;
      assert Got(a.tx, b.rx, Largest(b.rx.ranges));
    }
  }

  /** From any such state: the wake sends a packet, and if the peer outlives its arrival its turn
      puts an ack of that packet on the path. */
  lemma RoundsExist(w: Pair, wake: real, arrive: real, turn: real)
    requires Ready(w, wake)
    ensures exists p :: SentNew(w.a, OnWake(w.a, wake), p)
    ensures forall p :: SentNew(w.a, OnWake(w.a, wake), p) && !Receive(w.b, p, arrive).life.gone ==>
              exists q :: Answers(Turn(Receive(w.b, p, arrive), turn), q, p.pn)
  {
    hide Linked, Live, Pending, TimeoutDue, SentNew, Answers, Receive, Turn, OnWake;
    assert EndOk(w.a) && RecvOk(w.b) by { LinkedOk(w); }
    DueTimeoutSends(w.a, wake);
    LinkedStep(w.a, w.b, Woken, wake);
    forall p | SentNew(w.a, OnWake(w.a, wake), p) && !Receive(w.b, p, arrive).life.gone
      ensures p.Data? && exists q :: Answers(Turn(Receive(w.b, p, arrive), turn), q, p.pn)
    {
      DataOf(w.a, OnWake(w.a, wake), p);
      NewIsNews(w.a, OnWake(w.a, wake), w.b, p);
      ArrivalOwed(w.b, p, arrive);
      TurnAnswers(Receive(w.b, p, arrive), p.pn, turn);
    }
  }

  lemma LinkedOk(w: Pair)
    requires Linked(w.a, w.b)
    ensures EndOk(w.a) && EndOk(w.b) && RecvOk(w.b)
  {
  }

  lemma DataOf(a: Stream, u: Stream, p: Packet)
    requires SentNew(a, u, p)
    ensures p.Data? && p in u.wire && Awaited(u.tx, p.pn)
  {
  }

  /** A round, step by step. */
  ghost function Rounded(w: Pair, r: Round): Pair {
    Pair(Receive(OnWake(w.a, r.wake), r.q, r.back), Turn(Receive(w.b, r.p, r.arrive), r.turn))
  }

  lemma RoundRuns(w: Pair, r: Round)
    requires r.p in OnWake(w.a, r.wake).wire && r.q in Turn(Receive(w.b, r.p, r.arrive), r.turn).wire
    ensures Possible(w, Acts(r)) && Run(w, Acts(r)) == Rounded(w, r)
  {
    hide OnWake, Receive, Turn;
    var acts := Acts(r);
    var w1 := Apply(w, acts[0]);
    var w2 := Apply(w1, acts[1]);
    var w3 := Apply(w2, acts[2]);
    var w4 := Apply(w3, acts[3]);
    assert acts[1..][1..] == [acts[2], acts[3]] && acts[1..][1..][1..] == [acts[3]];
    assert Run(w3, [acts[3]]) == w4 && Possible(w3, [acts[3]]);
    assert Run(w2, [acts[2], acts[3]]) == w4 && Possible(w2, [acts[2], acts[3]]);
    assert Run(w1, acts[1..]) == w4 && Possible(w1, acts[1..]);
  }

  /** A round moves the bytes acked on. */
  lemma RoundMoves(w: Pair, r: Round)
    requires Ready(w, r.wake) && Delivers(w, r)
    ensures Possible(w, Acts(r))
    ensures var u := Run(w, Acts(r));
            && Linked(u.a, u.b) && Live(u.a)
            && u.a.tx.said == w.a.tx.said && Acked(u.a.tx) > Acked(w.a.tx)
  {
    hide Linked, Live, Pending, TimeoutDue, SentNew, Answers, OnWake, Receive, Turn, Acked, Useful, Run, Possible;
    var a, c := OnWake(w.a, r.wake), Turn(Receive(w.b, r.p, r.arrive), r.turn);
    WakeKeeps(w, r);
    RoundRuns(w, r);
    LinkedOk(Pair(a, c));
    LinkedStep(a, c, Arrived(r.q), r.back);
    StepAcked(a, Arrived(r.q), r.back);
    NeverStalls(a, Arrived(r.q), r.back);
  }

  /** Before the answer is back: all is kept, and the answer will be of use. */
  lemma WakeKeeps(w: Pair, r: Round)
    requires Ready(w, r.wake) && Delivers(w, r)
    ensures var a, c := OnWake(w.a, r.wake), Turn(Receive(w.b, r.p, r.arrive), r.turn);
            && Linked(a, c) && Live(a) && a.tx.said == w.a.tx.said && Acked(a.tx) == Acked(w.a.tx)
            && r.p in a.wire && r.q in c.wire && Useful(a, r.q)
  {
    hide Linked, Live, Pending, TimeoutDue, SentNew, Answers, OnWake, Receive, Turn, Acked, Useful;
    LinkedOk(w);
    var a, b := OnWake(w.a, r.wake), Receive(w.b, r.p, r.arrive);
    DataOf(w.a, a, r.p);
    DueTimeoutSends(w.a, r.wake);
    OnWakeAcked(w.a, r.wake);
    NeverStalls(w.a, Woken, r.wake);
    LinkedStep(w.a, w.b, Woken, r.wake);
    LinkedStep(w.b, a, Arrived(r.p), r.arrive);
    LinkedStep(b, a, TurnEnded, r.turn);
    AnswerUseful(a, Turn(b, r.turn), r.q, r.p.pn);
  }

  lemma AnswerUseful(a: Stream, c: Stream, q: Packet, pn: int)
    requires !a.life.gone && Awaited(a.tx, pn) && Answers(c, q, pn)
    ensures q in c.wire && Useful(a, q)
  {
  }

  ghost predicate Fair(w: Pair, rs: seq<Round>)
    decreases |rs|
  {
    rs == [] || (Ready(w, rs[0].wake) && Delivers(w, rs[0]) && Fair(Rounded(w, rs[0]), rs[1..]))
  }

  ghost function AfterRounds(w: Pair, rs: seq<Round>): Pair
    decreases |rs|
  {
    if rs == [] then w else AfterRounds(Rounded(w, rs[0]), rs[1..])
  }

  /** Fair rounds are no more than the bytes unacked, and when no more can come because nothing
      is pending, everything written is acked, or all that the peer gave credit for is. */
  lemma {:induction false} FairRoundsDrain(w: Pair, rs: seq<Round>)
    requires Linked(w.a, w.b) && Live(w.a) && Fair(w, rs)
    ensures var u := AfterRounds(w, rs);
            && Linked(u.a, u.b) && Live(u.a) && u.a.tx.said == w.a.tx.said
            && |rs| <= Acked(u.a.tx) - Acked(w.a.tx) <= |w.a.tx.said| - Acked(w.a.tx)
            && (!Pending(u.a.tx) ==> Buffered(u.a.tx) == 0 || Acked(u.a.tx) == u.a.tx.peerCredit)
    decreases |rs|
  {
    hide Linked, Live, Acked, Ready, Delivers, Rounded, Pending;
    LinkedOk(w);
    if rs == [] {
      AckedCounts(w.a.tx);
      if !Pending(w.a.tx) { NothingPending(w.a.tx); }
    } else {
      RoundMoves(w, rs[0]);
      assert rs[0].p in OnWake(w.a, rs[0].wake).wire && rs[0].q in Turn(Receive(w.b, rs[0].p, rs[0].arrive), rs[0].turn).wire by {
        WakeKeeps(w, rs[0]);
      }
      RoundRuns(w, rs[0]);
      FairRoundsDrain(Rounded(w, rs[0]), rs[1..]);
    }
  }

  lemma {:induction false} RunLive(w: Pair, acts: seq<Act>)
    requires Linked(w.a, w.b) && Live(w.a) && Possible(w, acts)
    ensures Live(Run(w, acts).a)
    decreases |acts|
  {
    hide Live, Linked, Step;
    if acts != [] {
      LinkedOk(w);
      if acts[0].atA {
        NeverStalls(w.a, acts[0].ev, acts[0].t);
        LinkedStep(w.a, w.b, acts[0].ev, acts[0].t);
      } else {
        LinkedTurned(w.a, w.b);
        LinkedStep(w.b, w.a, acts[0].ev, acts[0].t);
      }
      RunLive(Apply(w, acts[0]), acts[1..]);
    }
  }

  lemma LinkedTurned(a: Stream, b: Stream)
    requires Linked(a, b)
    ensures Linked(b, a)
  {
  }

  lemma OpeningLive()
    ensures Live(Opening().a)
  {
  }

  /** Progress: after any run from the start, whatever the network lost, fair rounds each move the
      bytes acked on, so there are no more of them than bytes unacked; and where they stop with
      nothing pending, all that was written is acked, or all that the peer gave credit for. */
  lemma EveryRunDrains(acts: seq<Act>, rs: seq<Round>)
    requires Possible(Opening(), acts) && Fair(Run(Opening(), acts), rs)
    ensures var w := Run(Opening(), acts);
            var u := AfterRounds(w, rs);
            && |rs| <= Acked(u.a.tx) - Acked(w.a.tx) <= |w.a.tx.said| - Acked(w.a.tx)
            && (!Pending(u.a.tx) ==> Buffered(u.a.tx) == 0 || Acked(u.a.tx) == u.a.tx.peerCredit)
            && (Buffered(u.a.tx) == 0 ==> End(u.b.rx) == |w.a.tx.said|)
  {
    hide Live, Fair, Acked, Pending, Buffered, Linked, AfterRounds, Possible, Run;
    OpeningLinked();
    OpeningLive();
    EveryRunLinked(acts);
    RunLive(Opening(), acts);
    FairRoundsDrain(Run(Opening(), acts), rs);
    var u := AfterRounds(Run(Opening(), acts), rs);
    if Buffered(u.a.tx) == 0 { Drained(u.a, u.b); }
  }

  lemma NothingPending(tx: Tx)
    requires ChunksOk(tx) && Tiled(tx) && !Pending(tx)
    ensures Buffered(tx) == 0 || Acked(tx) == tx.peerCredit
  {
    BufferedCounts(tx);
    assert SumMap(tx.chunks, LengthOf()) == 0;
  }

  // ── a lost credit update ─────────────────────────────────────────────────────────────

  lemma {:induction false} FlushLoopCredit(s: Stream, probes: nat, t: real)
    ensures FlushLoop(s, probes, t).tx.peerCredit == s.tx.peerCredit
    decreases probes, Max(0, s.cc.window.Floor + 1 - s.tx.bytesInFlight)
  {
    hide NextChunk;
    NextFlight(s.tx, probes > 0);
    if !(probes == 0 && WindowFull(s)) {
      SendNextRx(s, probes > 0, t);
      if NextChunk(s.tx, probes > 0).offset >= 0 {
        FlushLoopCredit(SendNext(s, probes > 0, t), if probes > 0 then probes - 1 else 0, t);
      }
    }
  }

  lemma {:induction false} AckEachBare(w: Walk, pns: seq<int>, largest: int)
    requires w.tx.chunks == map[]
    ensures AckEach(w, pns, largest).tx.chunks == map[]
    decreases |pns|
  {
    if pns != [] { AckEachBare(AckOne(w, pns[0], largest), pns[1..], largest); }
  }

  /** With nothing unacked, an ack that brings more credit makes more of what was written due. */
  lemma CreditFrees(s: Stream, credit: nat, delay: nat, ranges: seq<Range>, t: real)
    requires SendOk(s) && s.tx.chunks == map[] && s.tx.nextOffset == s.tx.peerCredit < Min(credit, |s.tx.said|)
    ensures var u := OnAck(s, credit, delay, ranges, t); Pending(u.tx) && u.life.gone == s.life.gone && u.life.open == s.life.open
  {
    hide Tiled, ChunksOk, Counted, CarriedBut, WireOk, Evolves, SumMap, AckBody, FlushLoop, Buffered, Acked;
    var h := News(credit, ranges);
    var heard := s.(tx := s.tx.(peerCredit := credit));
    TouchSteps(s, heard, h);
    var acked := if ranges == [] then heard else AckBody(heard, delay, ranges, t);
    if ranges != [] {
      var w := Walk(heard.tx, heard.cc, heard.rtt.ptoCount, None);
      WalkVisits(w, ranges, heard.tx.nextPn - 1, Min(ranges[0].hi, heard.tx.nextPn - 1));
      AckEachBare(w, Visited(ranges, heard.tx.nextPn - 1, heard.tx.oldestPn), Min(ranges[0].hi, heard.tx.nextPn - 1));
      AckBodyKeeps(heard, delay, h, t);
      AckBodyFrame(heard, delay, ranges, t);
      AckAllFrame(w, ranges, heard.tx.nextPn - 1, Min(ranges[0].hi, heard.tx.nextPn - 1));
    }
    BufferedCounts(acked.tx);
    FlushLeaves(acked, t);
  }

  lemma FlushLeaves(s: Stream, t: real)
    requires SendOk(s) && s.tx.chunks == map[] && s.tx.nextOffset < Min(s.tx.peerCredit, |s.tx.said|)
    ensures var u := Flush(s, 0, t); Pending(u.tx) && u.life.gone == s.life.gone && u.life.open == s.life.open
  {
    hide TxOk, WireOk, SumMap;
    var u := Flush(s, 0, t);
    FlushAcked(s, 0, t);
    FlushLoopCredit(s, 0, t);
    FlushLoopLife(s, 0, t);
    assert Acked(s.tx) == s.tx.nextOffset by { LengthsNone(s.tx.chunks); }
    if u.tx.chunks == map[] {
      assert Acked(u.tx) == u.tx.nextOffset by { LengthsNone(u.tx.chunks); }
    }
  }

  lemma LengthsNone(m: map<nat, seq<byte>>)
    requires m == map[]
    ensures SumMap(m, LengthOf()) == 0
  {
  }

  /** `b`'s keepalive is due, and `b` is not to end at this wake. */
  ghost predicate KeepaliveDue(s: Stream, t: real) {
    && s.life.open && !s.life.gone && !Le(s.life.lingerAt, Fin(t)) && Le(s.life.liveAt, Fin(t))
    && t - s.life.lastHeard <= SILENT_MS && !PeerGone(s, t) && t - s.life.lastSent >= KEEPALIVE_MS
  }

  /** With all it sent acked, a sender short of credit has all of it at the peer, in order. */
  lemma PeerHasMore(a: Stream, b: Stream)
    requires Linked(a, b) && a.tx.chunks == map[] && b.rx.held == []
    ensures b.rx.taken + b.rx.credit > a.tx.nextOffset
  {
    assert End(b.rx) < a.tx.nextOffset ==> Forgotten(a.tx, End(b.rx));
  }

  lemma KeepaliveAcks(b: Stream, t: real)
    requires KeepaliveDue(b, t)
    ensures exists q :: q in OnWake(b, t).wire && q.Ack? && q.credit == b.rx.taken + b.rx.credit
  {
    hide OnRecovery;
    var u := Tick(b, t);
    var q := u.wire[|b.wire|];
    OnRecoveryRx(u, t);
    assert q in u.wire && q.Ack? && q.credit == b.rx.taken + b.rx.credit;
    assert u.wire <= OnWake(b, t).wire;
  }

  /** A credit update lost on the way does not stop a stream for good: once the peer's reader has
      taken all there is, the peer's next keepalive brings credit, and with it the sender, with
      all it sent acked and more written, has more to send and a packet in flight. */
  lemma KeepaliveRestoresCredit(w: Pair, beat: real, t: real)
    requires Linked(w.a, w.b) && Live(w.a) && w.a.life.open && !w.a.life.gone
    requires !Pending(w.a.tx) && Buffered(w.a.tx) != 0
    requires w.b.rx.held == [] && KeepaliveDue(w.b, beat)
    ensures exists q :: q in OnWake(w.b, beat).wire && q.Ack? && q.credit > w.a.tx.peerCredit
    ensures forall q :: q in OnWake(w.b, beat).wire && q.Ack? && q.credit > w.a.tx.peerCredit ==>
              var u := Receive(w.a, q, t);
              Linked(u, OnWake(w.b, beat)) && !u.life.gone && Pending(u.tx) && u.tx.inFlight != map[]
  {
    hide RecvOk, Direction, OnAck, OnWake;
    BufferedCounts(w.a.tx);
    PeerHasMore(w.a, w.b);
    KeepaliveAcks(w.b, beat);
    LinkedStep(w.b, w.a, Woken, beat);
    forall q | q in OnWake(w.b, beat).wire && q.Ack? && q.credit > w.a.tx.peerCredit
      ensures var u := Receive(w.a, q, t);
              Linked(u, OnWake(w.b, beat)) && !u.life.gone && Pending(u.tx) && u.tx.inFlight != map[]
    {
      LinkedStep(w.a, OnWake(w.b, beat), Arrived(q), t);
      NeverStalls(w.a, Arrived(q), t);
      var heard := w.a.(life := w.a.life.(lastHeard := t));
      TxSameSteps(w.a, heard, Quiet());
      CreditFrees(heard, q.credit, q.delay, q.ranges, t);
    }
  }

  // ── loss wakes ───────────────────────────────────────────────────────────────────────

  /** The packets the loss timer is about: in flight, below the largest acked. */
  ghost function Judged(tx: Tx): set<nat> { set pn | pn in tx.inFlight && pn < tx.largestAcked }

  function LossDelay(rtt: Rtt): real { RMax(9.0 / 8.0 * RMax(rtt.latest, rtt.srtt), 1.0) }

  ghost predicate DueAt(tx: Tx, delay: real, at: Ext, pn: nat) {
    pn in Judged(tx) && at == Fin(tx.inFlight[pn].time + delay)
  }

  /** The loss timer, when set, is set for a packet still judged. */
  ghost predicate LossExact(s: Stream) {
    s.rtt.lossTime == PosInf || exists pn :: DueAt(s.tx, LossDelay(s.rtt), s.rtt.lossTime, pn)
  }

  /** What a scan from `pn` has left in flight, and the time it is to be woken for. */
  ghost predicate Scanned(c: Scan, from: nat, to: int, v: Verdict) {
    && (forall x :: x in c.tx.inFlight && from <= x < to ==>
          !IsLost(v, x, c.tx.inFlight[x]) && Le(c.lossTime, Fin(c.tx.inFlight[x].time + v.delay)))
    && (c.lossTime == PosInf || exists x :: x in c.tx.inFlight && from <= x < to
                                  && c.lossTime == Fin(c.tx.inFlight[x].time + v.delay))
  }

  lemma ScanOneTimes(c: Scan, from: nat, pn: nat, v: Verdict)
    requires from <= pn < v.largestAcked && Scanned(c, from, pn, v)
    ensures Scanned(ScanOne(c, pn, v), from, pn + 1, v)
  {
    var d := ScanOne(c, pn, v);
    if c.lossTime != PosInf {
      var x :| x in c.tx.inFlight && from <= x < pn && c.lossTime == Fin(c.tx.inFlight[x].time + v.delay);
      assert x in d.tx.inFlight && d.tx.inFlight[x] == c.tx.inFlight[x];
    }
    if d.lossTime != c.lossTime { assert pn in d.tx.inFlight && d.lossTime == Fin(d.tx.inFlight[pn].time + v.delay); }
  }

  lemma {:induction false} ScanFromTimes(c: Scan, from: nat, pn: nat, v: Verdict)
    requires from <= pn && Scanned(c, from, pn, v)
    ensures Scanned(ScanFrom(c, pn, v), from, Max(pn, v.largestAcked), v)
    decreases v.largestAcked - pn
  {
    if pn < v.largestAcked {
      ScanOneTimes(c, from, pn, v);
      ScanFromTimes(ScanOne(c, pn, v), from, pn + 1, v);
    }
  }

  /** After a loss scan the timer is set just where packets are still judged, for the first of them to
      be due, and none of them is due yet. */
  lemma ScanLeaves(s: Stream, t: real)
    requires SendOk(s)
    ensures var u := DetectLoss(s, t);
            && LossExact(u) && Judged(u.tx) <= Judged(s.tx) && LossDelay(u.rtt) == LossDelay(s.rtt)
            && (u.rtt.lossTime == PosInf || Lt(Fin(t), u.rtt.lossTime))
            && (u.rtt.lossTime == PosInf <==> Judged(u.tx) == {})
            && forall pn :: pn in Judged(u.tx) ==>
                 && u.tx.inFlight[pn] == s.tx.inFlight[pn] && u.tx.inFlight[pn].time + LossDelay(s.rtt) > t
                 && Le(u.rtt.lossTime, Fin(u.tx.inFlight[pn].time + LossDelay(s.rtt)))
  {
    hide Tiled, ChunksOk, Counted, CarriedBut, WireOk, SumMap;
    var tx, v := AdvanceOldest(s.tx), LossVerdict(s, t);
    AdvanceFrame(s.tx);
    AdvanceTouches(s.tx);
    ScanFromTimes(Scan(tx, PosInf, [], NegInf, PosInf, false), tx.oldestPn, tx.oldestPn, v);
    ScanFrame(Scan(tx, PosInf, [], NegInf, PosInf, false), tx.oldestPn, v);
    var c, u := LossScan(s, t), DetectLoss(s, t);
    LossScanOk(s, t);
    AdvanceFrame(c.tx);
    if c.lossTime != PosInf {
      var x :| x in c.tx.inFlight && tx.oldestPn <= x < Max(tx.oldestPn, v.largestAcked)
               && c.lossTime == Fin(c.tx.inFlight[x].time + v.delay);
      assert DueAt(u.tx, LossDelay(u.rtt), u.rtt.lossTime, x);
    }
  }

  lemma {:induction false} FlushLoopJudged(s: Stream, probes: nat, t: real)
    requires NumbersOk(s.tx)
    ensures var r := FlushLoop(s, probes, t);
            && Judged(r.tx) == Judged(s.tx) && r.rtt == s.rtt.(lastSentData := r.rtt.lastSentData)
            && forall pn :: pn in Judged(s.tx) ==> r.tx.inFlight[pn] == s.tx.inFlight[pn]
    decreases probes, Max(0, s.cc.window.Floor + 1 - s.tx.bytesInFlight)
  {
    hide SendNext, NextChunk;
    if !(probes == 0 && WindowFull(s)) {
      SendNextRx(s, probes > 0, t);
      SendNextJudged(s, probes > 0, t);
      if NextChunk(s.tx, probes > 0).offset >= 0 {
        FlushLoopJudged(SendNext(s, probes > 0, t), if probes > 0 then probes - 1 else 0, t);
      }
    }
  }

  lemma SendNextJudged(s: Stream, probe: bool, t: real)
    requires NumbersOk(s.tx)
    ensures var r := SendNext(s, probe, t);
            && NumbersOk(r.tx) && Judged(r.tx) == Judged(s.tx) && r.rtt == s.rtt.(lastSentData := r.rtt.lastSentData)
            && forall pn :: pn in Judged(s.tx) ==> r.tx.inFlight[pn] == s.tx.inFlight[pn]
  {
    hide NextChunk;
    NextFlight(s.tx, probe);
  }

  /** A loss wake leaves its timer exact and set for later, and each one made at an exact timer's
      time takes a packet out of those it is about. So between two acks, on one path, such wakes
      end, and what is in flight waits on the timeout, which sends. */
  lemma LossWakesEnd(s: Stream, t: real)
    requires SendOk(s) && !s.life.gone && s.life.open && s.tx.inFlight != map[]
    requires s.rtt.lossTime != PosInf && Le(s.rtt.lossTime, Fin(t))
    ensures var u := OnRecovery(s, t);
            && LossExact(u) && (u.rtt.lossTime == PosInf || Lt(Fin(t), u.rtt.lossTime))
            && Judged(u.tx) <= Judged(s.tx)
            && (LossExact(s) ==> Judged(u.tx) != Judged(s.tx))
  {
    hide Tiled, ChunksOk, Counted, CarriedBut, WireOk, SumMap, DetectLoss, FlushLoop;
    var woken := s.(life := s.life.(recoveryAt := PosInf));
    TxSameSteps(s, woken, Quiet());
    var d := DetectLoss(woken, t);
    DetectLossKeeps(woken, t, Quiet());
    LossFrame(woken, t);
    ScanLeaves(woken, t);
    FlushLoopJudged(d, 0, t);
    var u := OnRecovery(s, t);
    if u.rtt.lossTime != PosInf {
      var pn :| DueAt(d.tx, LossDelay(d.rtt), d.rtt.lossTime, pn);
      assert DueAt(u.tx, LossDelay(u.rtt), u.rtt.lossTime, pn);
    }
    if LossExact(s) {
      var pn :| DueAt(s.tx, LossDelay(s.rtt), s.rtt.lossTime, pn);
      assert pn in Judged(s.tx) && pn !in Judged(u.tx);
    }
  }
}
