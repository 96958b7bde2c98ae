/** What timeouts and probes do (WASM/transport/src/stream.js:630-675): each timeout in a row sends
    two packets past the window and waits twice as long, the second drops back to packets any
    path carries, and only a probe acked brings the larger ones back. */
module StreamPath {
  import opened Base
  import opened AckRanges
  import opened StreamSpec
  import opened StreamSender
  import opened StreamReceiver
  import opened StreamNetwork
  import opened StreamFlow
  import opened StreamProgress
  import opened StreamWindow

  // ── timeouts ─────────────────────────────────────────────────────────────────────────

  /** A timeout that is due and does not end the stream. */
  ghost predicate TimesOut(s: Stream, t: real) {
    && s.life.open && !s.life.gone && s.tx.inFlight != map[] && s.rtt.lossTime == PosInf
    && Le(RecoveryDue(s.rtt), Fin(t)) && !PeerGone(s, t)
  }

  /** How long the timeout at hand waits since the last packet with data. */
  function Wait(rtt: Rtt): real { Timeout(rtt) * Pow2(rtt.ptoCount) }

  lemma ProbeGoesOut(s: Stream, t: real)
    requires SendOk(s) && Pending(s.tx)
    ensures var u := SendNext(s, true, t);
            && SendOk(u) && Pending(u.tx) && |u.wire| == |s.wire| + 1 && s.wire <= u.wire
            && u.rtt == s.rtt.(lastSentData := t) && u.tx.nextPn == s.tx.nextPn + 1
            && s.tx.nextPn in u.tx.inFlight && u.tx.packetBytes == s.tx.packetBytes
  {
    hide Tiled, ChunksOk, Counted, CarriedBut, WireOk, Evolves, SumMap;
    PendingFinds(s.tx);
    SendNextSteps(s, true, t, Quiet());
    SendNextFits(s, true, t);
    hide NextChunk;
    NextFlight(s.tx, true);
    assert NextChunk(s.tx, true).offset in SendNext(s, true, t).tx.chunks;
  }

  /** Two probes send two packets whatever the window, if anything is not acked or unsent. */
  lemma TwoGoOut(s: Stream, t: real)
    requires SendOk(s) && Pending(s.tx)
    ensures var r := FlushLoop(s, 2, t);
            && |r.wire| >= |s.wire| + 2 && r.rtt == s.rtt.(lastSentData := t)
            && r.tx.packetBytes == s.tx.packetBytes && r.tx.inFlight != map[]
            && forall i :: |s.wire| <= i < |r.wire| ==> r.wire[i].Data? && DATA_HEADER + |r.wire[i].bytes| <= s.tx.packetBytes
  {
    hide SendOk, SendNext, NextChunk, Pending;
    PendingFinds(s.tx);
    ProbeGoesOut(s, t);
    var u := SendNext(s, true, t);
    PendingFinds(u.tx);
    ProbeGoesOut(u, t);
    var v := SendNext(u, true, t);
    FlushFitsPath(v, 0, t);
    FlushFitsPath(s, 2, t);
    NumbersHold(v);
    FlushLoopSame(v, 0, t);
    FlushLoopTimes(v, 0, t);
    assert FlushLoop(s, 2, t) == FlushLoop(u, 1, t) == FlushLoop(v, 0, t);
    assert u.tx.nextPn in v.tx.inFlight;
  }

  lemma NumbersHold(s: Stream)
    requires SendOk(s)
    ensures NumbersOk(s.tx) && forall pn :: pn in s.tx.inFlight ==> pn < s.tx.nextPn
  {
  }

  lemma {:induction false} FlushLoopTimes(s: Stream, probes: nat, t: real)
    ensures FlushLoop(s, probes, t).rtt.lastSentData in {s.rtt.lastSentData, t}
    decreases probes, Max(0, s.cc.window.Floor + 1 - s.tx.bytesInFlight)
  {
    if !(probes == 0 && WindowFull(s)) {
      SendNextRx(s, probes > 0, t);
      if NextChunk(s.tx, probes > 0).offset >= 0 {
        FlushLoopTimes(SendNext(s, probes > 0, t), if probes > 0 then probes - 1 else 0, t);
      }
    }
  }

  /** A timeout sends two packets or more past the window, and the next waits twice as long from
      them; from the second in a row on they fit any path, and larger ones are to be probed for
      again. */
  lemma TimeoutsBackOff(s: Stream, t: real)
    requires SendOk(s) && Pending(s.tx) && TimesOut(s, t)
    ensures var u := OnRecovery(s, t);
            && !u.life.gone && u.rtt.ptoCount == s.rtt.ptoCount + 1
            && u.life.recoveryAt == Fin(t + 2.0 * Wait(s.rtt)) == RecoveryDue(u.rtt)
            && u.tx.packetBytes == (if s.rtt.ptoCount >= 1 then 1200 else s.tx.packetBytes)
            && (s.rtt.ptoCount >= 1 && s.tx.packetBytes > 1200 ==> u.tx.reprobe)
            && |u.wire| >= |s.wire| + 2
            && forall i :: |s.wire| <= i < |u.wire| ==> u.wire[i].Data? && DATA_HEADER + |u.wire[i].bytes| <= u.tx.packetBytes
  {
    hide Tiled, ChunksOk, Counted, CarriedBut, WireOk, Evolves, SumMap, FlushLoop, Pto, Timeout, Pow2;
    var woken := s.(life := s.life.(recoveryAt := PosInf));
    TxSameSteps(s, woken, Quiet());
    var m := TimedOut(woken);
    TouchSteps(woken, m, Quiet());
    TwoGoOut(m, t);
    FlushLoopLife(m, 2, t);
    FlushLoopWakes(m, 2, t);
    WaitDoubles(OnRecovery(s, t).rtt, s.rtt);
    TimeoutIsPto(OnRecovery(s, t).rtt);
  }

  lemma WaitDoubles(b: Rtt, a: Rtt)
    requires b == a.(ptoCount := a.ptoCount + 1, lastSentData := b.lastSentData)
    ensures Wait(b) == 2.0 * Wait(a)
  {
    Doubled(Timeout(a), Pow2(a.ptoCount));
  }

  lemma Doubled(p: real, x: real)
    ensures p * (2.0 * x) == 2.0 * (p * x)
  {
  }

  lemma {:induction false} FlushLoopWakes(s: Stream, probes: nat, t: real)
    ensures var r := FlushLoop(s, probes, t);
            r.life.recoveryAt == s.life.recoveryAt && r.tx.reprobe == s.tx.reprobe && r.tx.probes == s.tx.probes
    decreases probes, Max(0, s.cc.window.Floor + 1 - s.tx.bytesInFlight)
  {
    hide NextChunk;
    NextFlight(s.tx, probes > 0);
    if !(probes == 0 && WindowFull(s)) {
      SendNextRx(s, probes > 0, t);
      if NextChunk(s.tx, probes > 0).offset >= 0 {
        FlushLoopWakes(SendNext(s, probes > 0, t), if probes > 0 then probes - 1 else 0, t);
      }
    }
  }

  // ── the size of packets ──────────────────────────────────────────────────────────────

  /** What an ack does to the size of packets and the probes outstanding, besides the window. */
  lemma AckSizes(s: Stream, credit: nat, delay: nat, ranges: seq<Range>, t: real)
    requires SendOk(s) && ranges != [] && s.life.open && !s.life.gone
    ensures var u := OnAck(s, credit, delay, ranges, t);
            && u.tx.packetBytes == (if NamesAny(ranges, s.tx.probes) then 1452 else s.tx.packetBytes)
            && (Good(ranges) && NamesFlight(s, ranges) ==> !u.tx.reprobe)
            && (Good(ranges) && NamesFlight(s, ranges) && s.tx.reprobe ==>
                  exists p :: p in u.wire && p.Probe? && p.pn >= s.tx.nextPn)
  {
    hide Tiled, ChunksOk, Counted, CarriedBut, WireOk, Evolves, FlushLoop, Buffered, Acknowledge, DetectLoss, Reprobe, AfterWalk,
      Exonerate, NamesAny, SendOk, Timed;
    var heard := s.(tx := s.tx.(peerCredit := Max(s.tx.peerCredit, credit)));
    TouchSteps(s, heard, News(credit, ranges)) by { HeardTouches(s, credit); }
    AfterWalkSizes(heard, ranges);
    if Good(ranges) { WalkTakes(heard, ranges); }
    AfterWalkShape(heard, ranges);
    var w := AfterWalk(heard, ranges);
    var timed := Timed(w, Acknowledge(heard, ranges).newest, delay, t);
    TimedSizes(w, Acknowledge(heard, ranges).newest, delay, t);
    LossSizes(timed, t);
    var judged := DetectLoss(timed, t);
    var acked := Reprobe(judged, t);
    ReprobeSends(judged, t);
    FlushSizes(acked, 0, t);
    FlushRx(acked, 0, t);
    assert NamesFlight(heard, ranges) == NamesFlight(s, ranges);
    assert OnAck(s, credit, delay, ranges, t) in {EndStream(acked, t), Flush(acked, 0, t)};
    if Good(ranges) && NamesFlight(s, ranges) && s.tx.reprobe {
      var p :| p in acked.wire && p.Probe? && p.pn >= judged.tx.nextPn;
      assert p in OnAck(s, credit, delay, ranges, t).wire;
    }
  }

  lemma TimedSizes(s: Stream, newest: Option<Sent>, delay: nat, t: real)
    ensures var u := Timed(s, newest, delay, t); u.tx == s.tx && u.life == s.life && u.rtt.ptoCount == s.rtt.ptoCount
  {
  }

  lemma HeardTouches(s: Stream, credit: nat)
    requires SendOk(s)
    ensures SendOk(s) && Touches(s.tx, s.tx.(peerCredit := Max(s.tx.peerCredit, credit)))
  {
  }

  lemma AfterWalkSizes(s: Stream, ranges: seq<Range>)
    requires ranges != []
    ensures var u := AfterWalk(s, ranges);
            && u.tx.packetBytes == (if NamesAny(ranges, s.tx.probes) then 1452 else s.tx.packetBytes)
            && u.tx.reprobe == s.tx.reprobe && u.tx.nextPn == s.tx.nextPn && u.life.open == s.life.open && u.life.gone == s.life.gone
  {
    hide Exonerate, NamesAny;
    var w := Walk(s.tx, s.cc, s.rtt.ptoCount, None);
    AckAllSizes(w, ranges, s.tx.nextPn - 1, Min(ranges[0].hi, s.tx.nextPn - 1));
    AckAllFrame(w, ranges, s.tx.nextPn - 1, Min(ranges[0].hi, s.tx.nextPn - 1));
    var a := Acknowledge(s, ranges);
    var m := ProbeAcked(s.(tx := a.tx, cc := a.cc, rtt := s.rtt.(ptoCount := a.ptoCount)), ranges);
    AdvanceFrame(m.tx.(largestAcked := Max(m.tx.largestAcked, Top(s, ranges))));
  }

  lemma {:induction false} AckRunSizes(w: Walk, lo: int, hi: int, largest: int)
    ensures var u := AckRun(w, lo, hi, largest).tx;
            u.packetBytes == w.tx.packetBytes && u.probes == w.tx.probes && u.reprobe == w.tx.reprobe
    decreases hi + 1 - lo
  {
    if lo <= hi { AckRunSizes(AckOne(w, lo, largest), lo + 1, hi, largest); }
  }

  lemma {:induction false} AckAllSizes(w: Walk, rest: seq<Range>, below: int, largest: int)
    ensures var u := AckAll(w, rest, below, largest).tx;
            u.packetBytes == w.tx.packetBytes && u.probes == w.tx.probes && u.reprobe == w.tx.reprobe
    decreases |rest|
  {
    if rest != [] {
      var hi, lo := Min(rest[0].hi, below), Max(rest[0].lo, w.tx.oldestPn);
      if lo > hi {
        AckAllSizes(w, rest[1..], below, largest);
      } else {
        AckRunSizes(w, lo, hi, largest);
        AckAllSizes(AckRun(w, lo, hi, largest), rest[1..], lo - 1, largest);
      }
    }
  }

  lemma ScanOneSizes(c: Scan, pn: nat, v: Verdict)
    ensures var u := ScanOne(c, pn, v).tx;
            u.packetBytes == c.tx.packetBytes && u.probes == c.tx.probes && u.reprobe == c.tx.reprobe && u.nextPn == c.tx.nextPn
  {
    hide IsLost, ExtMin, ExtMax, AddLost;
  }

  lemma {:induction false} ScanSizes(c: Scan, pn: nat, v: Verdict)
    ensures var u := ScanFrom(c, pn, v).tx;
            u.packetBytes == c.tx.packetBytes && u.probes == c.tx.probes && u.reprobe == c.tx.reprobe && u.nextPn == c.tx.nextPn
    decreases v.largestAcked - pn
  {
    hide ScanOne;
    if pn < v.largestAcked {
      ScanOneSizes(c, pn, v);
      ScanSizes(ScanOne(c, pn, v), pn + 1, v);
    }
  }

  lemma LossSizes(s: Stream, t: real)
    ensures var d := DetectLoss(s, t);
            && d.tx.packetBytes == s.tx.packetBytes && d.tx.reprobe == s.tx.reprobe && d.tx.probes == s.tx.probes
            && d.tx.nextPn == s.tx.nextPn && d.life == s.life && d.rtt.ptoCount == s.rtt.ptoCount
  {
    var tx := AdvanceOldest(s.tx);
    AdvanceFrame(s.tx);
    ScanSizes(Scan(tx, PosInf, [], NegInf, PosInf, false), tx.oldestPn, LossVerdict(s, t));
    AdvanceFrame(LossScan(s, t).tx);
  }

  lemma ReprobeSends(s: Stream, t: real)
    requires s.life.open && !s.life.gone
    ensures var u := Reprobe(s, t);
            && u.tx.packetBytes == s.tx.packetBytes && s.wire <= u.wire && u.life.gone == s.life.gone && u.life.open
            && (s.rtt.ptoCount == 0 ==> !u.tx.reprobe)
            && (s.rtt.ptoCount == 0 && s.tx.reprobe ==> exists p :: p in u.wire && p.Probe? && p.pn >= s.tx.nextPn)
  {
    if s.tx.reprobe && s.rtt.ptoCount == 0 {
      assert Reprobe(s, t).wire[|s.wire|] == Probe(s.tx.nextPn);
    }
  }

  lemma FlushSizes(s: Stream, probes: nat, t: real)
    ensures var u := Flush(s, probes, t);
            u.tx.packetBytes == s.tx.packetBytes && u.tx.reprobe == s.tx.reprobe && u.tx.probes == s.tx.probes
  {
    FlushFitsPath(s, probes, t);
    FlushLoopWakes(s, probes, t);
  }

  /** Packets grow only on an ack that names a probe, and shrink only as the path moves or on the
      second timeout in a row. */
  lemma SizeMoves(s: Stream, ev: Event, t: real)
    requires EndOk(s) && s.life.open && !s.life.gone
    ensures var u := Step(s, ev, t);
            && (u.tx.packetBytes > s.tx.packetBytes ==> ev.Arrived? && ev.p.Ack? && NamesAny(ev.p.ranges, s.tx.probes))
            && (u.tx.packetBytes < s.tx.packetBytes ==> ev.Moved? || (ev.Woken? && s.rtt.ptoCount >= 1))
            && (ev.Arrived? && ev.p.Ack? && NamesAny(ev.p.ranges, s.tx.probes) ==> u.tx.packetBytes == 1452)
            && (ev.Moved? ==> u.tx.packetBytes == 1200)
  {
    hide SendOk, RecvOk, OnAck, OnRecovery, Flush;
    match ev
    case Started =>
    case Written(bytes) => FlushSizes(s.(tx := s.tx.(said := s.tx.said + bytes)), 0, t);
    case Arrived(p) => ArrivalSizes(s, p, t);
    case Woken => WakeSizes(s, t);
    case TurnEnded => TurnSame(s, t);
    case ReaderSet => TurnSame(s, t);
    case ReadSettled => TurnSame(s, t);
    case Moved(rttMs) =>
      SendAckSame(Forget(s, rttMs, t), t);
      FlushSizes(SendAck(Forget(s, rttMs, t), t), 0, t);
      ProbeSizes(Flush(SendAck(Forget(s, rttMs, t), t), 0, t), t);
    case Closing(graceful) => CloseSame(s, graceful, t);
  }

  lemma ProbeSizes(s: Stream, t: real)
    ensures SendProbe(s, t).tx.packetBytes == s.tx.packetBytes && StartProbe(s, t).tx.packetBytes == s.tx.packetBytes
  {
  }

  lemma ArrivalSizes(s: Stream, p: Packet, t: real)
    requires SendOk(s) && s.life.open && !s.life.gone
    ensures var u := Receive(s, p, t);
            u.tx.packetBytes == if p.Ack? && NamesAny(p.ranges, s.tx.probes) then 1452 else s.tx.packetBytes
  {
    hide SendOk, OnAck, Flush;
    var heard := s.(life := s.life.(lastHeard := t));
    TxSameSteps(s, heard, Quiet());
    match p
    case Data(pn, offset, floor, bytes) => ReceivedSame(heard, pn, t);
    case Ack(credit, delay, ranges) =>
      if ranges != [] { AckSizes(heard, credit, delay, ranges, t); } else { BareAckSizes(heard, credit, delay, t); }
    case Probe(pn) => ReceivedSame(heard, pn, t);
    case Close =>
  }

  lemma BareAckSizes(s: Stream, credit: nat, delay: nat, t: real)
    ensures OnAck(s, credit, delay, [], t).tx.packetBytes == s.tx.packetBytes && !NamesAny([], s.tx.probes)
  {
    hide FlushLoop, Buffered;
    FlushSizes(s.(tx := s.tx.(peerCredit := Max(s.tx.peerCredit, credit))), 0, t);
  }

  lemma RecoverySizes(s: Stream, t: real)
    ensures var u := OnRecovery(s, t);
            u.tx.packetBytes == s.tx.packetBytes || (u.tx.packetBytes == 1200 && s.rtt.ptoCount >= 1)
  {
    hide DetectLoss, Flush;
    var woken := s.(life := s.life.(recoveryAt := PosInf));
    LossSizes(woken, t);
    FlushSizes(DetectLoss(woken, t), 0, t);
    FlushSizes(TimedOut(woken), 2, t);
  }

  lemma WakeSizes(s: Stream, t: real)
    ensures var u := OnWake(s, t);
            u.tx.packetBytes == s.tx.packetBytes || (u.tx.packetBytes == 1200 && s.rtt.ptoCount >= 1)
  {
    hide OnRecovery, SendProbe, EndStream;
    EndStreamSame(s, t);
    TickSame(s, t);
    TickTimes(s, t);
    var ticked := if Le(s.life.liveAt, Fin(t)) then Tick(s, t) else s;
    RecoverySizes(ticked, t);
    ProbeSizes(OnRecovery(ticked, t), t);
    ProbeSizes(ticked, t);
  }

  lemma TickTimes(s: Stream, t: real)
    ensures Tick(s, t).rtt == s.rtt
  {
  }

  // ── what goes out, and when a path begins ────────────────────────────────────────────

  /** The first lost offset still unacked. */
  ghost predicate FirstLost(tx: Tx, i: nat) {
    i < |tx.lost| && tx.lost[i] in tx.chunks && forall j :: 0 <= j < i ==> tx.lost[j] !in tx.chunks
  }

  lemma {:induction false} LiveFirst(lost: seq<nat>, chunks: map<nat, seq<byte>>, i: nat)
    requires i < |lost| && lost[i] in chunks && forall j :: 0 <= j < i ==> lost[j] !in chunks
    ensures LiveLost(lost, chunks) == lost[i..]
    decreases i
  {
    if i > 0 { LiveFirst(lost[1..], chunks, i - 1); }
  }

  lemma {:induction false} LiveNone(lost: seq<nat>, chunks: map<nat, seq<byte>>)
    requires forall j :: 0 <= j < |lost| ==> lost[j] !in chunks
    ensures LiveLost(lost, chunks) == []
    decreases |lost|
  {
    if lost != [] { LiveNone(lost[1..], chunks); }
  }

  ghost predicate NoneLost(tx: Tx) { forall i :: 0 <= i < |tx.lost| ==> tx.lost[i] !in tx.chunks }

  /** Whether these bytes are next: the first lost chunk still unacked; with none, as much as is
      written, credited and fits one packet; with none, for a probe, the least unacked. */
  ghost predicate InTurn(tx: Tx, probe: bool, o: nat, bytes: seq<byte>) {
    && (forall i: nat :: FirstLost(tx, i) ==> o == tx.lost[i])
    && (NoneLost(tx) ==>
          var n := Min(Min(|tx.said|, tx.peerCredit) - tx.nextOffset, tx.packetBytes - 27);
          if n > 0 then o == tx.nextOffset && o + n <= |tx.said| && bytes == tx.said[o..o + n]
          else probe && o in tx.chunks && forall x :: x in tx.chunks ==> o <= x)
  }

  lemma NextInTurn(tx: Tx, probe: bool)
    requires NextChunk(tx, probe).offset >= 0
    ensures var n := NextChunk(tx, probe); InTurn(tx, probe, n.offset, n.tx.chunks[n.offset])
  {
    forall i: nat | FirstLost(tx, i) ensures LiveLost(tx.lost, tx.chunks) == tx.lost[i..] {
      LiveFirst(tx.lost, tx.chunks, i);
    }
    if NoneLost(tx) { LiveNone(tx.lost, tx.chunks); }
  }

  /** What is sent is what is next, counted into the flight under a new number, with a floor that is
      no number still waited on. */
  lemma SendsInTurn(s: Stream, probe: bool, t: real)
    requires SendOk(s) && NextChunk(s.tx, probe).offset >= 0
    ensures var u := SendNext(s, probe, t);
            && |u.wire| == |s.wire| + 1 && u.wire[|s.wire|].Data?
            && var p := u.wire[|s.wire|];
               && p.pn == s.tx.nextPn && u.tx.inFlight == s.tx.inFlight[p.pn := Sent(p.offset, 27 + |p.bytes|, t)]
               && (forall x :: x in s.tx.inFlight ==> p.floor <= x) && (s.tx.probes != [] ==> p.floor <= s.tx.probes[0])
               && InTurn(s.tx, probe, p.offset, p.bytes)
  {
    hide Tiled, ChunksOk, Counted, CarriedBut, WireOk, NextChunk, InTurn;
    NextInTurn(s.tx, probe);
    NextFlight(s.tx, probe);
    SendNextFits(s, probe, t);
  }

  /** A stream's path opens once: what arrived before is acked, what was written goes out, and the
      first ack is to start probing for larger packets. */
  lemma StartOnce(s: Stream, t: real)
    requires !s.life.gone
    ensures s.life.open ==> Start(s, t) == s
    ensures !s.life.open ==>
              var u := Start(s, t);
              && u.life.open && u.tx.reprobe && u.life.liveAt == Fin(t + 5000.0) && s.wire <= u.wire
              && (s.rx.ranges != [] ==> |u.wire| > |s.wire| && u.wire[|s.wire|].Ack? && u.wire[|s.wire|].ranges == s.rx.ranges)
              && (!Waits(u.tx) || (u.tx.bytesInFlight + u.tx.packetBytes) as real > u.cc.window)
  {
    hide FlushLoop;
    if !s.life.open {
      var up := Opened(s, t);
      var acked := if up.rx.ranges != [] then SendAck(up, t) else up;
      FlushRx(acked, 0, t);
      FlushLoopLife(acked, 0, t);
      FlushLoopEnds(acked, 0, t);
      KeptLive(acked, t);
    }
  }

  lemma KeptLive(s: Stream, t: real)
    ensures FlushLoop(s, 0, t).life.liveAt == s.life.liveAt
  {
    FlushLoopLiveAt(s, 0, t);
  }

  lemma {:induction false} FlushLoopLiveAt(s: Stream, probes: nat, t: real)
    ensures FlushLoop(s, probes, t).life.liveAt == s.life.liveAt
    decreases probes, Max(0, s.cc.window.Floor + 1 - s.tx.bytesInFlight)
  {
    if !(probes == 0 && WindowFull(s)) {
      SendNextRx(s, probes > 0, t);
      if NextChunk(s.tx, probes > 0).offset >= 0 {
        FlushLoopLiveAt(SendNext(s, probes > 0, t), if probes > 0 then probes - 1 else 0, t);
      }
    }
  }

  /** A new path starts over: the first window and packet size, its own round trip, no timeouts in
      a row, no cut to undo, an ack to it first and a probe of it last. */
  lemma MovedStartsOver(s: Stream, rttMs: real, t: real)
    requires SendOk(s) && s.life.open && !s.life.gone
    ensures var u := Repath(s, rttMs, t);
            && u.cc.window == 12000.0 && u.cc.threshold == PosInf && u.cc.recoveryStart == Fin(t)
            && u.cc.undo == None && u.cc.suspects == []
            && u.tx.packetBytes == 1200 && u.rtt.ptoCount == 0
            && u.rtt.minRtt == Fin(rttMs) && u.rtt.srtt == u.rtt.latest == rttMs && u.rtt.rttvar == rttMs / 2.0
            && |u.wire| >= |s.wire| + 2 && u.wire[|s.wire|].Ack? && u.wire[|u.wire| - 1].Probe?
            && u.tx.probes == [u.wire[|u.wire| - 1].pn]
  {
    hide FlushLoop, TxOk, WireOk;
    var m := Forget(s, rttMs, t);
    var a := SendAck(m, t);
    TouchSteps(s, m, Quiet()) by { ForgetOk(s, rttMs, t); }
    FlushRx(a, 0, t);
    FlushLoopLife(a, 0, t);
    FlushLoopSame(a, 0, t) by { ForgetOk(s, rttMs, t); }
    FlushSizes(a, 0, t);
    assert a.wire[|s.wire|].Ack?;
  }

  lemma ForgetOk(s: Stream, rttMs: real, t: real)
    requires SendOk(s)
    ensures SendOk(s) && Touches(s.tx, Forget(s, rttMs, t).tx) && NumbersOk(Forget(s, rttMs, t).tx)
  {
  }
}
