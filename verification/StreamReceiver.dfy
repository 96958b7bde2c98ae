/** What every step of the receiving side keeps, for any packets at all, and what an honest
    peer's packets make of it (WASM/transport/src/stream.js:302-376). */
module StreamReceiver {
  import opened Base
  import opened AckRanges
  import opened StreamSpec
  import opened StreamSender

  function CostOf(): seq<byte> -> int { (b: seq<byte>) => DATA_HEADER + |b| }

  /** Everything but that the in-order end waits in `ahead`, which `Absorb` sees to. */
  ghost predicate RxMid(rx: Rx) {
    && (forall o :: o in rx.ahead ==> |rx.ahead[o]| > 0 && o + |rx.ahead[o]| <= rx.furthest)
    && (forall i :: 0 <= i < |rx.held| ==> |rx.held[i]| > 0)
    && End(rx) <= rx.furthest <= rx.taken + rx.credit
    && rx.aheadBytes == SumMap(rx.ahead, CostOf())
    && Good(rx.ranges) && |rx.ranges| <= MAX_RANGES
    && rx.advertised <= rx.taken + rx.credit
    && CREDIT <= rx.credit <= MAX_CREDIT
  }

  ghost predicate RxOk(rx: Rx) { RxMid(rx) && End(rx) !in rx.ahead }

  /** The cell at `x` is in order already, or waits past a gap under its own offset. */
  ghost predicate Covered(rx: Rx, x: nat) { x < End(rx) || x in rx.ahead }

  /** Nothing received is given up, and the credit given is never taken back. */
  ghost predicate RxGrows(a: Rx, b: Rx) {
    && End(a) <= End(b)
    && a.taken + a.credit <= b.taken + b.credit
    && a.handed <= b.handed
    && (forall x :: Covered(a, x) ==> Covered(b, x))
  }

  /** Everything received is what the peer wrote, and the in-order end is one of its cuts. */
  ghost predicate Honest(tx: Tx, rx: Rx) {
    && End(rx) in tx.bounds && End(rx) <= |tx.said|
    && Flat(rx.held) == tx.said[rx.taken..End(rx)]
    && rx.handed == tx.said[..rx.taken]
    && (forall o :: o in rx.ahead ==> Carries(tx, o, rx.ahead[o]))
  }

  // ── storing a chunk ────────────────────────────────────────────────────────────────

  function AbsorbOne(rx: Rx): Rx
    requires End(rx) in rx.ahead
  {
    var next := rx.ahead[End(rx)];
    rx.(ahead := rx.ahead - {End(rx)}, aheadBytes := rx.aheadBytes - (DATA_HEADER + |next|), held := rx.held + [next])
  }

  lemma AbsorbOneKeeps(rx: Rx)
    requires RxMid(rx) && End(rx) in rx.ahead
    ensures RxMid(AbsorbOne(rx)) && RxGrows(rx, AbsorbOne(rx))
    ensures End(AbsorbOne(rx)) == End(rx) + |rx.ahead[End(rx)]|
  {
    var next := rx.ahead[End(rx)];
    FlatSnoc(rx.held, next);
    SumMapSplit(rx.ahead, CostOf(), End(rx));
  }

  lemma {:induction false} AbsorbKeeps(rx: Rx)
    requires RxMid(rx)
    ensures RxOk(Absorb(rx)) && RxGrows(rx, Absorb(rx))
    ensures var b := Absorb(rx);
            b.taken == rx.taken && b.furthest == rx.furthest && b.handed == rx.handed && b.ranges == rx.ranges
            && b.credit == rx.credit && b.advertised == rx.advertised
    decreases |rx.ahead|
  {
    if End(rx) in rx.ahead {
      AbsorbOneKeeps(rx);
      AbsorbKeeps(AbsorbOne(rx));
    }
  }

  lemma ClearKeeps(rx: Rx)
    requires RxOk(rx)
    ensures RxOk(ClearPassed(rx)) && RxGrows(rx, ClearPassed(rx))
  {
    assert SumMap(map[], CostOf()) == 0;
  }

  lemma AppendKeeps(rx: Rx, bytes: seq<byte>)
    requires RxOk(rx) && |bytes| > 0 && End(rx) + |bytes| <= rx.furthest
    ensures RxOk(Append(rx, bytes)) && RxGrows(rx, Append(rx, bytes))
    ensures Covered(Append(rx, bytes), End(rx)) && Append(rx, bytes).ranges == rx.ranges
  {
    var put := rx.(held := rx.held + [bytes]);
    FlatSnoc(rx.held, bytes);
    AbsorbKeeps(put);
    ClearKeeps(Absorb(put));
  }

  lemma ParkKeeps(rx: Rx, offset: nat, bytes: seq<byte>)
    requires RxOk(rx) && |bytes| > 0 && offset + |bytes| <= rx.furthest
    requires offset > End(rx) && offset !in rx.ahead
    ensures RxOk(Park(rx, offset, bytes)) && RxGrows(rx, Park(rx, offset, bytes))
    ensures Covered(Park(rx, offset, bytes), offset) && Park(rx, offset, bytes).ranges == rx.ranges
  {
    hide SumMap, Flat, Good;
    SumMapAdd(rx.ahead, CostOf(), offset, bytes);
  }

  /** Storing one chunk keeps every bound, for any peer, and covers the chunk's offset. */
  lemma StoreKeeps(rx: Rx, offset: nat, bytes: seq<byte>)
    requires RxOk(rx) && |bytes| > 0 && offset + |bytes| <= rx.taken + rx.credit
    ensures RxOk(Store(rx, offset, bytes)) && RxGrows(rx, Store(rx, offset, bytes))
    ensures Covered(Store(rx, offset, bytes), offset)
    ensures Store(rx, offset, bytes).ranges == rx.ranges
  {
    hide RxMid, Append, Park;
    var seen := rx.(furthest := Max(rx.furthest, offset + |bytes|));
    SeenKeeps(rx, offset, bytes);
    if offset == End(seen) {
      AppendKeeps(seen, bytes);
      GrowsOn(rx, seen, Append(seen, bytes));
    } else if offset > End(seen) && offset !in seen.ahead {
      ParkKeeps(seen, offset, bytes);
      GrowsOn(rx, seen, Park(seen, offset, bytes));
    }
  }

  /** Having seen as far as a chunk reaches, within the credit, changes no bound. */
  lemma SeenKeeps(rx: Rx, offset: nat, bytes: seq<byte>)
    requires RxOk(rx) && offset + |bytes| <= rx.taken + rx.credit
    ensures var seen := rx.(furthest := Max(rx.furthest, offset + |bytes|));
            RxOk(seen) && RxGrows(rx, seen) && offset + |bytes| <= seen.furthest
  {
  }

  lemma GrowsOn(a: Rx, b: Rx, c: Rx)
    requires RxGrows(a, b) && RxGrows(b, c)
    ensures RxGrows(a, c)
  {
  }

  // ── an honest peer ─────────────────────────────────────────────────────────────────

  lemma AbsorbOneHonest(tx: Tx, rx: Rx)
    requires Honest(tx, rx) && End(rx) in rx.ahead
    ensures Honest(tx, AbsorbOne(rx))
  {
    var next := rx.ahead[End(rx)];
    assert Carries(tx, End(rx), next);
    FlatSnoc(rx.held, next);
    assert tx.said[rx.taken..End(rx)] + next == tx.said[rx.taken..End(rx) + |next|];
  }

  lemma {:induction false} AbsorbHonest(tx: Tx, rx: Rx)
    requires Honest(tx, rx)
    ensures Honest(tx, Absorb(rx))
    decreases |rx.ahead|
  {
    if End(rx) in rx.ahead {
      AbsorbOneHonest(tx, rx);
      AbsorbHonest(tx, AbsorbOne(rx));
    }
  }

  lemma AppendHonest(tx: Tx, rx: Rx, bytes: seq<byte>)
    requires Honest(tx, rx) && Carries(tx, End(rx), bytes)
    ensures Honest(tx, Append(rx, bytes))
  {
    var put := rx.(held := rx.held + [bytes]);
    var to := End(rx);
    FlatSnoc(rx.held, bytes);
    assert tx.said[rx.taken..to] + bytes == tx.said[rx.taken..to + |bytes|];
    AbsorbHonest(tx, put);
  }

  /** A whole copy or a piece of it: either way the in-order end stays one of the cuts. */
  lemma StoreHonest(tx: Tx, rx: Rx, offset: nat, bytes: seq<byte>)
    requires Honest(tx, rx) && Carries(tx, offset, bytes)
    ensures Honest(tx, Store(rx, offset, bytes))
  {
    var seen := rx.(furthest := Max(rx.furthest, offset + |bytes|));
    assert Honest(tx, seen);
    if offset == End(seen) {
      AppendHonest(tx, seen, bytes);
    }
  }

  // ── the reader ─────────────────────────────────────────────────────────────────────

  lemma {:induction false} DropBytesFlat(ps: seq<seq<byte>>, n: nat)
    requires n <= |Flat(ps)| && forall i :: 0 <= i < |ps| ==> |ps[i]| > 0
    ensures Flat(DropBytes(ps, n)) == Flat(ps)[n..]
    ensures |DropBytes(ps, n)| <= |ps|
    ensures forall i :: 0 <= i < |DropBytes(ps, n)| ==> |DropBytes(ps, n)[i]| > 0
  {
    if n == 0 || ps == [] {
    } else if |ps[0]| <= n {
      DropBytesFlat(ps[1..], n - |ps[0]|);
      assert Flat(ps)[n..] == Flat(ps[1..])[n - |ps[0]|..];
    } else {
      var d := [ps[0][n..]] + ps[1..];
      assert d[1..] == ps[1..];
    }
  }

  lemma HandOverKeeps(s: Stream)
    requires RxOk(s.rx)
    ensures RxOk(HandOver(s).rx) && RxGrows(s.rx, HandOver(s).rx)
    ensures HandOver(s).rx.ranges == s.rx.ranges && End(HandOver(s).rx) == End(s.rx)
    ensures |HandOver(s).rx.held| <= |s.rx.held| && HandOver(s).rx.ahead == s.rx.ahead
    ensures HandOver(s).rx.credit == s.rx.credit
    ensures HandOver(s) == s.(rx := HandOver(s).rx)
  {
    DropBytesFlat(s.rx.held, Min(|Flat(s.rx.held)|, MAX_READ));
  }

  lemma HandOverHonest(tx: Tx, s: Stream)
    requires RxOk(s.rx) && Honest(tx, s.rx)
    ensures Honest(tx, HandOver(s).rx)
  {
    hide SumMap, Good;
    var n := Min(|Flat(s.rx.held)|, MAX_READ);
    DropBytesFlat(s.rx.held, n);
    var from, to := s.rx.taken, End(s.rx);
    SliceAt(tx.said, from, to, n);
  }

  lemma SliceAt(said: seq<byte>, from: nat, to: nat, n: nat)
    requires from + n <= to <= |said|
    ensures said[from..to][n..] == said[from + n..to] && said[..from] + said[from..to][..n] == said[..from + n]
  {
  }

  lemma TuneKeeps(s: Stream, t: real)
    requires RxOk(s.rx)
    ensures RxOk(TuneCredit(s, t).rx) && RxGrows(s.rx, TuneCredit(s, t).rx)
    ensures s.rx.credit <= TuneCredit(s, t).rx.credit
    ensures var r := TuneCredit(s, t).rx;
            r == s.rx.(credit := r.credit, creditAt := r.creditAt, creditEnd := r.creditEnd)
    ensures TuneCredit(s, t) == s.(rx := TuneCredit(s, t).rx)
  {
    hide SumMap, Flat, Names, Good;
  }

  // ── whole handlers ─────────────────────────────────────────────────────────────────

  /** What is buffered never passes two credits, as packets or as slices, or the stream has
      ended. */
  ghost predicate RecvOk(s: Stream) { RxOk(s.rx) && (s.life.gone || !Overrun(s.rx)) }

  ghost predicate NamesOnly(ranges: seq<Range>, known: seq<Range>, pn: int) {
    forall x :: Names(ranges, x) ==> Names(known, x) || x == pn
  }

  /** A step, as the receiving side sees it: what it has grows, and its record and every ack
      it sends name only packets it had, and the packet `pn` now taken. */
  ghost predicate Hears(a: Stream, b: Stream, pn: int) {
    && RecvOk(b) && RxGrows(a.rx, b.rx) && a.wire <= b.wire
    && NamesOnly(b.rx.ranges, a.rx.ranges, pn)
    && (forall q :: q in b.wire && q !in a.wire && q.Ack? ==>
          q.credit <= b.rx.taken + b.rx.credit && NamesOnly(q.ranges, a.rx.ranges, pn))
  }

  lemma HearsTrans(a: Stream, b: Stream, c: Stream, pn: int)
    requires Hears(a, b, pn) && Hears(b, c, pn)
    ensures Hears(a, c, pn)
  {
    forall q | q in c.wire && q !in a.wire && q.Ack?
      ensures q.credit <= c.rx.taken + c.rx.credit && NamesOnly(q.ranges, a.rx.ranges, pn)
    {
      if q !in b.wire { assert NamesOnly(q.ranges, b.rx.ranges, pn); }
    }
  }

  lemma HearsLess(a: Stream, b: Stream, pn: int)
    requires Hears(a, b, -1)
    ensures Hears(a, b, pn)
  {
    assert forall r: seq<Range> :: !Names(r, -1);
    forall q | q in b.wire && q !in a.wire && q.Ack?
      ensures NamesOnly(q.ranges, a.rx.ranges, pn)
    {
      assert NamesOnly(q.ranges, a.rx.ranges, -1);
    }
  }

  /** The receiving side is untouched, and no ack was sent. */
  ghost predicate RxSame(a: Stream, b: Stream) {
    && b.rx == a.rx && a.wire <= b.wire && (a.life.gone ==> b.life.gone)
    && forall q :: q in b.wire && q !in a.wire ==> !q.Ack?
  }

  lemma RxSameHears(a: Stream, b: Stream)
    requires RecvOk(a) && RxSame(a, b)
    ensures Hears(a, b, -1)
  {
  }

  lemma RxSameTrans(a: Stream, b: Stream, c: Stream)
    requires RxSame(a, b) && RxSame(b, c)
    ensures RxSame(a, c)
  {
  }

  lemma SendAckHears(s: Stream, t: real)
    requires RecvOk(s)
    ensures Hears(s, SendAck(s, t), -1)
    ensures var r := SendAck(s, t).rx; r == s.rx.(unacked := r.unacked, advertised := r.advertised)
    ensures SendAck(s, t).life == s.life.(lastSent := SendAck(s, t).life.lastSent)
  {
    hide Flat, SumMap;
    var b := SendAck(s, t);
    forall q | q in b.wire && q !in s.wire && q.Ack?
      ensures q.credit <= b.rx.taken + b.rx.credit && NamesOnly(q.ranges, s.rx.ranges, -1)
    {
      assert q in b.wire[|s.wire|..];
    }
  }

  lemma NoteHears(s: Stream, pn: nat)
    requires RecvOk(s)
    ensures Hears(s, Note(s, pn), pn)
  {
    RecordDenotes(s.rx.ranges, pn);
  }

  lemma MarkHears(s: Stream, m: Stream, b: Stream, pn: int)
    requires Hears(s, m, pn)
    requires b == m.(rx := m.rx.(turnDue := b.rx.turnDue, unacked := b.rx.unacked))
    ensures Hears(s, b, pn)
  {
  }

  lemma ReceivedHears(s: Stream, pn: nat, t: real)
    requires RecvOk(s)
    ensures Hears(s, Received(s, pn, t), pn)
    ensures var r := Received(s, pn, t).rx;
            r == s.rx.(ranges := r.ranges, largestAt := r.largestAt, unacked := r.unacked,
                       advertised := r.advertised, turnDue := true)
  {
    var noted := Note(s, pn).(rx := Note(s, pn).rx.(turnDue := true));
    NoteHears(s, pn);
    MarkHears(s, Note(s, pn), noted, pn);
    if pn != Largest(s.rx.ranges) + 1 {
      SendAckHears(noted, t);
      HearsLess(noted, SendAck(noted, t), pn);
      HearsTrans(s, noted, SendAck(noted, t), pn);
    } else {
      MarkHears(s, noted, Received(s, pn, t), pn);
    }
  }

  ghost predicate Accepts(s: Stream, offset: nat, bytes: seq<byte>) {
    offset + |bytes| <= s.rx.taken + s.rx.credit
  }

  lemma TrimKeeps(rx: Rx, floor: nat)
    requires RxOk(rx)
    ensures var b := rx.(ranges := Trim(rx.ranges, floor));
            RxOk(b) && RxGrows(rx, b) && NamesOnly(b.ranges, rx.ranges, -1)
  {
    TrimDenotes(rx.ranges, floor);
  }

  lemma KeepHears(s: Stream, offset: nat, floor: nat, bytes: seq<byte>)
    requires RecvOk(s) && bytes != [] && Accepts(s, offset, bytes)
    ensures Hears(s, Keep(s, offset, floor, bytes), -1) && Covered(Keep(s, offset, floor, bytes).rx, offset)
  {
    var pruned := s.rx.(ranges := Trim(s.rx.ranges, floor));
    TrimKeeps(s.rx, floor);
    StoreKeeps(pruned, offset, bytes);
    var b := Keep(s, offset, floor, bytes);
    assert b.rx == Store(pruned, offset, bytes) && b.wire == s.wire;
    assert RxGrows(s.rx, b.rx);
  }

  /** A chunk past the credit leaves no trace; any other is stored before the step ends, so
      whatever the ack named is covered. */
  lemma OnChunkHears(s: Stream, pn: nat, offset: nat, floor: nat, bytes: seq<byte>, t: real)
    requires RecvOk(s) && bytes != []
    ensures var b := OnChunk(s, pn, offset, floor, bytes, t);
            if Accepts(s, offset, bytes) then Hears(s, b, pn) && Covered(b.rx, offset) else b == s
  {
    if Accepts(s, offset, bytes) {
      var noted := Received(s, pn, t);
      ReceivedHears(s, pn, t);
      KeepHears(noted, offset, floor, bytes);
      HearsLess(noted, Keep(noted, offset, floor, bytes), pn);
      HearsTrans(s, noted, Keep(noted, offset, floor, bytes), pn);
    }
  }

  lemma HandOverHears(s: Stream)
    requires RecvOk(s)
    ensures Hears(s, HandOver(s), -1)
  {
    HandOverKeeps(s);
  }

  lemma TuneHears(s: Stream, t: real)
    requires RecvOk(s)
    ensures Hears(s, TuneCredit(s, t), -1)
  {
    TuneKeeps(s, t);
  }

  lemma DeliverHears(s: Stream, t: real)
    requires RecvOk(s)
    ensures Hears(s, Deliver(s, t), -1)
  {
    var h := HandOver(s);
    HandOverHears(s);
    TuneHears(h, t);
    var u := TuneCredit(h, t);
    HearsTrans(s, h, u, -1);
    SendAckHears(u, t);
    HearsTrans(s, u, SendAck(u, t), -1);
  }

  lemma FlagHears(s: Stream, b: Stream)
    requires RecvOk(s)
    requires b == s.(rx := s.rx.(turnDue := b.rx.turnDue, hasReader := b.rx.hasReader, reading := b.rx.reading))
    ensures Hears(s, b, -1)
  {
  }

  lemma TurnHears(s: Stream, t: real)
    requires RecvOk(s)
    ensures Hears(s, Turn(s, t), -1)
  {
    var m := s.(rx := s.rx.(turnDue := false));
    FlagHears(s, m);
    DeliverHears(m, t);
    var d := Deliver(m, t);
    HearsTrans(s, m, d, -1);
    SendAckHears(d, t);
    HearsTrans(s, d, SendAck(d, t), -1);
  }

  lemma ReaderHears(s: Stream, t: real)
    requires RecvOk(s)
    ensures Hears(s, Reader(s, t), -1) && Hears(s, ReadDone(s, t), -1)
  {
    var m, n := s.(rx := s.rx.(hasReader := true)), s.(rx := s.rx.(reading := false));
    FlagHears(s, m);
    DeliverHears(m, t);
    HearsTrans(s, m, Deliver(m, t), -1);
    FlagHears(s, n);
    DeliverHears(n, t);
    HearsTrans(s, n, Deliver(n, t), -1);
  }

  // ── the sending handlers leave the receiving side alone ───────────────────────────────

  lemma SendNextRx(s: Stream, probe: bool, t: real)
    ensures RxSame(s, SendNext(s, probe, t))
    ensures NextChunk(s.tx, probe).offset >= 0 ==> SendNext(s, probe, t).tx.bytesInFlight > s.tx.bytesInFlight
    ensures SendNext(s, probe, t).cc.window == s.cc.window
  {
  }

  lemma {:induction false} FlushLoopRx(s: Stream, probes: nat, t: real)
    ensures RxSame(s, FlushLoop(s, probes, t))
    decreases probes, Max(0, s.cc.window.Floor + 1 - s.tx.bytesInFlight)
  {
    if !(probes == 0 && WindowFull(s)) {
      SendNextRx(s, probes > 0, t);
      var u := SendNext(s, probes > 0, t);
      if NextChunk(s.tx, probes > 0).offset >= 0 {
        var left := if probes > 0 then probes - 1 else 0;
        FlushLoopRx(u, left, t);
        RxSameTrans(s, u, FlushLoop(u, left, t));
      }
    }
  }

  lemma FlushRx(s: Stream, probes: nat, t: real)
    ensures RxSame(s, Flush(s, probes, t))
  {
    FlushLoopRx(s, probes, t);
  }

  lemma EndStreamRx(s: Stream, t: real)
    ensures RxSame(s, EndStream(s, t))
  {
  }

  lemma AckBodyRx(s: Stream, delay: nat, ranges: seq<Range>, t: real)
    requires ranges != []
    ensures RxSame(s, AckBody(s, delay, ranges, t))
  {
    hide SumMap, AckAll, ScanFrom, AdvanceOldest, Exonerate, Sample;
    var walked := AfterWalk(s, ranges);
    assert RxSame(s, walked);
    var timed := Timed(walked, Acknowledge(s, ranges).newest, delay, t);
    var judged := DetectLoss(timed, t);
    assert RxSame(s, judged);
    assert RxSame(judged, Reprobe(judged, t));
    RxSameTrans(s, judged, Reprobe(judged, t));
  }

  lemma OnAckRx(s: Stream, credit: nat, delay: nat, ranges: seq<Range>, t: real)
    ensures RxSame(s, OnAck(s, credit, delay, ranges, t))
  {
    var heard := s.(tx := s.tx.(peerCredit := Max(s.tx.peerCredit, credit)));
    var acked := if ranges == [] then heard else AckBody(heard, delay, ranges, t);
    if ranges != [] { AckBodyRx(heard, delay, ranges, t); }
    assert RxSame(s, acked);
    EndStreamRx(acked, t);
    FlushRx(acked, 0, t);
    RxSameTrans(s, acked, OnAck(s, credit, delay, ranges, t));
  }

  lemma OnRecoveryRx(s: Stream, t: real)
    ensures RxSame(s, OnRecovery(s, t))
  {
    hide ScanFrom, AdvanceOldest, FlushLoop, Cut, Suspect;
    var woken := s.(life := s.life.(recoveryAt := PosInf));
    EndStreamRx(woken, t);
    FlushRx(DetectLoss(woken, t), 0, t);
    FlushRx(TimedOut(woken), 2, t);
    assert RxSame(s, DetectLoss(woken, t)) && RxSame(s, TimedOut(woken));
  }

  lemma OnWakeHears(s: Stream, t: real)
    requires RecvOk(s)
    ensures Hears(s, OnWake(s, t), -1)
  {
    hide RxOk, RxGrows, NamesOnly, Overrun;
    RxSameHears(s, s);
    EndStreamRx(s, t);
    RxSameHears(s, EndStream(s, t));
    if !s.life.gone && !Le(s.life.lingerAt, Fin(t)) {
      var ticked := if Le(s.life.liveAt, Fin(t)) then Tick(s, t) else s;
      TickHears(s, t);
      var recovered := if !ticked.life.gone && Le(ticked.life.recoveryAt, Fin(t)) then OnRecovery(ticked, t) else ticked;
      OnRecoveryRx(ticked, t);
      assert RxSame(ticked, recovered);
      assert RxSame(recovered, SendProbe(recovered, t));
      RxSameTrans(ticked, recovered, SendProbe(recovered, t));
      RxSameHears(ticked, OnWake(s, t));
      HearsTrans(s, ticked, OnWake(s, t), -1);
    }
  }

  lemma TickHears(s: Stream, t: real)
    requires RecvOk(s)
    ensures Hears(s, Tick(s, t), -1)
  {
    EndStreamRx(s, t);
    RxSameHears(s, EndStream(s, t));
    SendAckHears(s, t);
    var kept := if t - s.life.lastSent >= KEEPALIVE_MS then SendAck(s, t) else s;
    RxSameHears(s, s);
    RxSameHears(kept, kept.(life := kept.life.(liveAt := Fin(t + KEEPALIVE_MS))));
    HearsTrans(s, kept, kept.(life := kept.life.(liveAt := Fin(t + KEEPALIVE_MS))), -1);
    RxSameHears(s, Fail(s));
  }

  lemma StartHears(s: Stream, t: real)
    requires RecvOk(s)
    ensures Hears(s, Start(s, t), -1)
  {
    RxSameHears(s, s);
    if !s.life.gone && !s.life.open {
      var up := Opened(s, t);
      RxSameHears(s, up);
      SendAckHears(up, t);
      HearsTrans(s, up, SendAck(up, t), -1);
      var acked := if up.rx.ranges != [] then SendAck(up, t) else up;
      FlushRx(acked, 0, t);
      RxSameHears(acked, Start(s, t));
      HearsTrans(s, acked, Start(s, t), -1);
    }
  }

  lemma RepathHears(s: Stream, rttMs: real, t: real)
    requires RecvOk(s)
    ensures Hears(s, Repath(s, rttMs, t), -1)
  {
    RxSameHears(s, s);
    if !s.life.gone {
      var m := Forget(s, rttMs, t);
      RxSameHears(s, m);
      SendAckHears(m, t);
      HearsTrans(s, m, SendAck(m, t), -1);
      var f := Flush(SendAck(m, t), 0, t);
      FlushRx(SendAck(m, t), 0, t);
      assert RxSame(f, StartProbe(f, t));
      RxSameTrans(SendAck(m, t), f, StartProbe(f, t));
      RxSameHears(SendAck(m, t), StartProbe(f, t));
      HearsTrans(s, SendAck(m, t), StartProbe(f, t), -1);
    }
  }
}
