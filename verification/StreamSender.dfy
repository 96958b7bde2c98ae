/** What every step of the sending side keeps (WASM/transport/src/stream.js:416-608).

    The stream is cut into cells. A cell may be split while whole copies of it are still in
    flight, so the invariant speaks of boundaries, which are only ever added: every packet
    ever sent runs from one current boundary to another. */
module StreamSender {
  import opened Base
  import opened AckRanges
  import opened StreamSpec

  /** The cuts lie in what was sent, its two ends included, and none lies inside a chunk. */
  ghost predicate Tiled(tx: Tx) {
    && 0 in tx.bounds && tx.nextOffset in tx.bounds
    && (forall b :: b in tx.bounds ==> b <= tx.nextOffset)
    && (forall o, b :: o in tx.chunks && b in tx.bounds ==> b <= o || o + |tx.chunks[o]| <= b)
  }

  /** A chunk not acked is one whole cell of what was written. */
  ghost predicate ChunksOk(tx: Tx) {
    && tx.nextOffset <= |tx.said|
    && tx.nextOffset <= tx.peerCredit
    && (forall o :: o in tx.chunks ==> Carries(tx, o, tx.chunks[o]))
  }

  /** Bytes as a packet carries them: what was written there, a whole run of cells. */
  ghost predicate Carries(tx: Tx, offset: nat, bytes: seq<byte>) {
    && offset in tx.bounds && offset + |bytes| in tx.bounds && |bytes| > 0
    && offset + |bytes| <= |tx.said|
    && bytes == tx.said[offset..offset + |bytes|]
  }

  ghost predicate NumbersOk(tx: Tx) {
    && tx.oldestPn <= tx.nextPn
    && tx.largestAcked < tx.nextPn
    && (forall pn :: pn in tx.numbers ==> pn < tx.nextPn)
    && (forall pn :: pn in tx.inFlight ==>
          tx.oldestPn <= pn && pn in tx.numbers && tx.numbers[pn] == tx.inFlight[pn].offset)
  }

  function SizeOf(): Sent -> int { (s: Sent) => s.size }

  /** The flight is counted exactly. */
  ghost predicate Counted(tx: Tx) { tx.bytesInFlight == SumMap(tx.inFlight, SizeOf()) }

  /** A packet carrying the chunk at `o` is in flight. */
  ghost predicate InAir(tx: Tx, o: nat) {
    exists pn :: pn in tx.inFlight && tx.inFlight[pn].offset == o
  }

  /** Every chunk not acked is due to be resent, or a packet in flight carries it; `but` is
      the one now being sent, or -1. */
  ghost predicate CarriedBut(tx: Tx, but: int) {
    forall o :: o in tx.chunks && o != but ==> o in tx.lost || InAir(tx, o)
  }

  ghost predicate TxCore(tx: Tx) { Tiled(tx) && ChunksOk(tx) && NumbersOk(tx) && Counted(tx) }

  ghost predicate TxOk(tx: Tx) { TxCore(tx) && CarriedBut(tx, -1) }

  ghost predicate PacketOk(tx: Tx, p: Packet) {
    match p
    case Data(pn, offset, _, bytes) =>
      pn in tx.numbers && tx.numbers[pn] == offset && Carries(tx, offset, bytes) && DATA_HEADER + |bytes| <= MAX_PACKET
    case Probe(pn) => pn < tx.nextPn && pn !in tx.numbers
    case _ => true
  }

  ghost predicate WireOk(s: Stream) { forall p :: p in s.wire ==> PacketOk(s.tx, p) }

  /** What an ack brings the sender: the peer's credit and the numbers it names. */
  datatype News = News(credit: nat, ranges: seq<Range>)

  function Quiet(): News { News(0, []) }

  /** The cell at `o` was forgotten because an ack named a packet that carried it. */
  ghost predicate AckedAt(tx: Tx, ranges: seq<Range>, o: nat) {
    exists pn :: pn in tx.numbers && tx.numbers[pn] == o && Names(ranges, pn)
  }

  ghost predicate Forgotten(tx: Tx, o: nat) { o in tx.bounds && o < tx.nextOffset && o !in tx.chunks }

  /** How the sending side may change: bytes and boundaries are only added, a number keeps its
      offset, new numbers are new, the peer's credit is its own, and a cell is forgotten only
      for an ack. */
  ghost predicate Evolves(a: Tx, b: Tx, h: News) {
    && a.said <= b.said
    && a.nextOffset <= b.nextOffset
    && a.nextPn <= b.nextPn
    && b.peerCredit <= Max(a.peerCredit, h.credit)
    && a.bounds <= b.bounds
    && (forall pn :: pn in a.numbers ==> pn in b.numbers && b.numbers[pn] == a.numbers[pn])
    && (forall pn :: pn in b.numbers && pn !in a.numbers ==> pn >= a.nextPn)
    && (forall o :: Forgotten(b, o) ==> Forgotten(a, o) || AckedAt(b, h.ranges, o))
  }

  lemma EvolvesTrans(a: Tx, b: Tx, c: Tx, h: News)
    requires Evolves(a, b, h) && Evolves(b, c, h)
    ensures Evolves(a, c, h)
  {
    forall o | Forgotten(c, o)
      ensures Forgotten(a, o) || AckedAt(c, h.ranges, o)
    {
      if Forgotten(b, o) && AckedAt(b, h.ranges, o) {
        var pn :| pn in b.numbers && b.numbers[pn] == o && Names(h.ranges, pn);
        assert pn in c.numbers && c.numbers[pn] == o;
      }
    }
  }

  /** What a packet carries it goes on carrying, whatever is split after. */
  lemma CarriesStable(a: Tx, b: Tx, h: News, offset: nat, bytes: seq<byte>)
    requires Evolves(a, b, h)
    requires Carries(a, offset, bytes)
    ensures Carries(b, offset, bytes)
  {
  }

  lemma WireStable(s: Stream, tx: Tx, h: News)
    requires WireOk(s) && Evolves(s.tx, tx, h)
    ensures WireOk(s.(tx := tx))
  {
    forall p | p in s.wire
      ensures PacketOk(tx, p)
    {
      if p.Data? {
        CarriesStable(s.tx, tx, h, p.offset, p.bytes);
      }
    }
  }

  // ── cutting and sending ────────────────────────────────────────────────────────────

  /** Splitting a chunk adds one cut and keeps every other. */
  lemma FitKeeps(tx: Tx, o: nat, h: News)
    requires TxCore(tx) && o in tx.chunks
    ensures TxCore(Fit(tx, o)) && Evolves(tx, Fit(tx, o), h)
  {
    if DATA_HEADER + |tx.chunks[o]| > tx.packetBytes {
      var rest: nat := o + tx.packetBytes - DATA_HEADER;
      assert Carries(tx, o, tx.chunks[o]);
      FitTiled(tx, o, rest);
      FitChunks(tx, o, rest);
    }
    FitEvolves(tx, o, h);
  }

  lemma FitEvolves(tx: Tx, o: nat, h: News)
    requires o in tx.chunks
    ensures Evolves(tx, Fit(tx, o), h)
    ensures NumbersOk(tx) ==> NumbersOk(Fit(tx, o))
    ensures Counted(tx) ==> Counted(Fit(tx, o))
  {
  }

  lemma FitTiled(tx: Tx, o: nat, rest: nat)
    requires Tiled(tx) && ChunksOk(tx) && o in tx.chunks && rest == o + tx.packetBytes - DATA_HEADER
    requires rest < o + |tx.chunks[o]|
    ensures Tiled(Fit(tx, o))
  {
    hide SumMap;
    var f := Fit(tx, o);
    forall a, b | a in f.chunks && b in f.bounds
      ensures b <= a || a + |f.chunks[a]| <= b
    {
      FitApart(tx, o, rest, a, b);
    }
    assert Carries(tx, o, tx.chunks[o]);
  }

  /** No cut, old or new, lies inside a chunk, whole or split. */
  lemma FitApart(tx: Tx, o: nat, rest: nat, a: nat, b: nat)
    requires Tiled(tx) && ChunksOk(tx) && o in tx.chunks && rest == o + tx.packetBytes - DATA_HEADER
    requires rest < o + |tx.chunks[o]| && a in Fit(tx, o).chunks && b in Fit(tx, o).bounds
    ensures b <= a || a + |Fit(tx, o).chunks[a]| <= b
  {
    if a != o && a != rest {
      assert Carries(tx, a, tx.chunks[a]) && Carries(tx, o, tx.chunks[o]);
    }
  }

  lemma SliceSplit(said: seq<byte>, whole: seq<byte>, o: nat, rest: nat)
    requires o <= rest <= o + |whole| <= |said| && whole == said[o..o + |whole|]
    ensures whole[..rest - o] == said[o..rest] && whole[rest - o..] == said[rest..o + |whole|]
  {
  }

  lemma FitChunks(tx: Tx, o: nat, rest: nat)
    requires ChunksOk(tx) && o in tx.chunks && rest == o + tx.packetBytes - DATA_HEADER
    requires rest < o + |tx.chunks[o]|
    ensures ChunksOk(Fit(tx, o))
  {
    var f := Fit(tx, o);
    var whole := tx.chunks[o];
    forall a | a in f.chunks
      ensures Carries(f, a, f.chunks[a])
    {
      assert Carries(tx, o, whole);
      if a == o {
        SliceSplit(tx.said, whole, o, rest);
      } else if a == rest {
        SliceSplit(tx.said, whole, o, rest);
      } else {
        assert Carries(tx, a, tx.chunks[a]);
      }
    }
  }

  lemma CutNewKeeps(tx: Tx, h: News)
    requires TxCore(tx) && NewBytes(tx) > 0
    ensures TxCore(CutNew(tx)) && Evolves(tx, CutNew(tx), h)
  {
    hide SumMap, Tiled, ChunksOk, Carries;
    CutNewTiled(tx);
    CutNewChunks(tx);
  }

  lemma CutNewTiled(tx: Tx)
    requires Tiled(tx) && ChunksOk(tx) && NewBytes(tx) > 0
    ensures Tiled(CutNew(tx))
  {
    var c := CutNew(tx);
    forall a, b | a in c.chunks && b in c.bounds
      ensures b <= a || a + |c.chunks[a]| <= b
    {
      if a != tx.nextOffset { assert Carries(tx, a, tx.chunks[a]); }
    }
  }

  lemma CutNewChunks(tx: Tx)
    requires Tiled(tx) && ChunksOk(tx) && NewBytes(tx) > 0
    ensures ChunksOk(CutNew(tx))
  {
    var c := CutNew(tx);
    forall a | a in c.chunks
      ensures Carries(c, a, c.chunks[a])
    {
      if a != tx.nextOffset { assert Carries(tx, a, tx.chunks[a]); }
    }
  }

  /** What NextChunk settles on: the chunk to send, cut to size, and everything else still
      carried. */
  lemma NextChunkKeeps(tx: Tx, probe: bool, h: News)
    requires TxOk(tx)
    ensures var n := NextChunk(tx, probe);
            TxCore(n.tx) && Evolves(tx, n.tx, h) && CarriedBut(n.tx, n.offset)
  {
    if LiveLost(tx.lost, tx.chunks) != [] {
      ResendKeeps(tx, h);
    } else {
      DryKeeps(tx, h);
      var dry := tx.(lost := []);
      if NewBytes(dry) > 0 {
        CutNewKeeps(dry, h);
        EvolvesTrans(tx, dry, CutNew(dry), h);
        CutNewCarried(dry);
      } else if probe && OldestChunk(dry) >= 0 {
        FitKeeps(dry, OldestChunk(dry), h);
        EvolvesTrans(tx, dry, Fit(dry, OldestChunk(dry)), h);
        FitCarried(dry, OldestChunk(dry));
      }
    }
  }

  lemma ResendKeeps(tx: Tx, h: News)
    requires TxOk(tx) && LiveLost(tx.lost, tx.chunks) != []
    ensures var live := LiveLost(tx.lost, tx.chunks);
            var f := Fit(tx.(lost := live[1..]), live[0]);
            TxCore(f) && Evolves(tx, f, h) && CarriedBut(f, live[0])
  {
    var live := LiveLost(tx.lost, tx.chunks);
    var popped := tx.(lost := live[1..]);
    assert CarriedBut(popped, live[0]) by {
      forall o | o in popped.chunks && o != live[0]
        ensures o in popped.lost || InAir(popped, o)
      {
        assert InAir(tx, o) ==> InAir(popped, o);
        assert o in live ==> o in live[1..];
      }
    }
    assert TxCore(popped) && Evolves(tx, popped, h);
    FitKeeps(popped, live[0], h);
    FitCarried(popped, live[0]);
    EvolvesTrans(tx, popped, Fit(popped, live[0]), h);
  }

  lemma DryKeeps(tx: Tx, h: News)
    requires TxOk(tx) && LiveLost(tx.lost, tx.chunks) == []
    ensures var dry := tx.(lost := []);
            TxCore(dry) && Evolves(tx, dry, h) && CarriedBut(dry, -1)
  {
    var dry := tx.(lost := []);
    forall o | o in dry.chunks ensures InAir(dry, o) { assert InAir(tx, o); }
  }

  lemma FitCarried(tx: Tx, o: nat)
    requires o in tx.chunks && CarriedBut(tx, o)
    ensures CarriedBut(Fit(tx, o), o)
  {
    var f := Fit(tx, o);
    forall x | x in f.chunks && x != o
      ensures x in f.lost || InAir(f, x)
    {
      assert x in tx.chunks ==> (InAir(tx, x) ==> InAir(f, x));
    }
  }

  lemma CutNewCarried(tx: Tx)
    requires NewBytes(tx) > 0 && CarriedBut(tx, -1)
    ensures CarriedBut(CutNew(tx), tx.nextOffset)
  {
    var c := CutNew(tx);
    forall x | x in c.chunks && x != tx.nextOffset
      ensures x in c.lost || InAir(c, x)
    {
      assert InAir(tx, x) ==> InAir(c, x);
    }
  }

  lemma SendChunkKeeps(s: Stream, o: nat, t: real, h: News)
    requires TxCore(s.tx) && o in s.tx.chunks && CarriedBut(s.tx, o)
    ensures TxOk(SendChunk(s, o, t).tx) && Evolves(s.tx, SendChunk(s, o, t).tx, h)
  {
    hide SumMap, Carries;
    var tx, u := s.tx, SendChunk(s, o, t).tx;
    assert tx.nextPn !in tx.inFlight;
    SumMapAdd(tx.inFlight, SizeOf(), tx.nextPn, u.inFlight[tx.nextPn]);
    SendChunkCarried(s, o, t);
    SendChunkChunks(tx, u);
  }

  lemma SendChunkChunks(tx: Tx, u: Tx)
    requires ChunksOk(tx) && u == tx.(nextPn := u.nextPn, numbers := u.numbers, inFlight := u.inFlight, bytesInFlight := u.bytesInFlight)
    ensures ChunksOk(u)
  {
    forall a | a in u.chunks ensures Carries(u, a, u.chunks[a]) { assert Carries(tx, a, tx.chunks[a]); }
  }

  lemma SendChunkCarried(s: Stream, o: nat, t: real)
    requires NumbersOk(s.tx) && o in s.tx.chunks && CarriedBut(s.tx, o)
    ensures CarriedBut(SendChunk(s, o, t).tx, -1)
  {
    var tx, u := s.tx, SendChunk(s, o, t).tx;
    forall x | x in u.chunks
      ensures x in u.lost || InAir(u, x)
    {
      if x == o {
        assert u.inFlight[tx.nextPn].offset == x;
      } else if InAir(tx, x) {
        var pn :| pn in tx.inFlight && tx.inFlight[pn].offset == x;
        assert u.inFlight[pn].offset == x;
      }
    }
  }

  lemma SentPacketOk(s: Stream, o: nat, t: real)
    requires TxCore(s.tx) && o in s.tx.chunks && WireOk(s)
    requires DATA_HEADER + |s.tx.chunks[o]| <= s.tx.packetBytes
    requires CarriedBut(s.tx, o)
    ensures WireOk(SendChunk(s, o, t))
  {
    var u := SendChunk(s, o, t);
    SendChunkKeeps(s, o, t, Quiet());
    WireStable(s, u.tx, Quiet());
    var p := Data(s.tx.nextPn, o, SendFloor(s.tx), s.tx.chunks[o]);
    assert PacketOk(u.tx, p) by { assert Carries(s.tx, o, s.tx.chunks[o]); }
    forall q | q in u.wire ensures PacketOk(u.tx, q) {
      if q in s.wire { assert PacketOk(s.(tx := u.tx).tx, q); } else { assert q == p; }
    }
  }

  /** One turn of the send loop keeps everything. */
  lemma SendNextKeeps(s: Stream, probe: bool, t: real, h: News)
    requires TxOk(s.tx) && WireOk(s)
    ensures TxOk(SendNext(s, probe, t).tx) && WireOk(SendNext(s, probe, t))
    ensures Evolves(s.tx, SendNext(s, probe, t).tx, h)
  {
    var n := NextChunk(s.tx, probe);
    NextChunkKeeps(s.tx, probe, h);
    WireStable(s, n.tx, h);
    if n.offset >= 0 {
      SendFoundKeeps(s, n, t, h);
    }
  }

  lemma SendFoundKeeps(s: Stream, n: Next, t: real, h: News)
    requires TxCore(n.tx) && Evolves(s.tx, n.tx, h) && CarriedBut(n.tx, n.offset)
    requires WireOk(s.(tx := n.tx))
    requires n.offset >= 0 && n.offset in n.tx.chunks
    requires DATA_HEADER + |n.tx.chunks[n.offset]| <= n.tx.packetBytes
    ensures var u := SendChunk(s.(tx := n.tx), n.offset, t);
            TxOk(u.tx) && WireOk(u) && Evolves(s.tx, u.tx, h)
  {
    var m := s.(tx := n.tx);
    SendChunkKeeps(m, n.offset, t, h);
    SentPacketOk(m, n.offset, t);
    EvolvesTrans(s.tx, n.tx, SendChunk(m, n.offset, t).tx, h);
  }

  // ── whole handlers ─────────────────────────────────────────────────────────────────

  ghost predicate SendOk(s: Stream) { TxOk(s.tx) && WireOk(s) }

  /** A step of the whole stream, as its sending side sees it. */
  ghost predicate Steps(a: Stream, b: Stream, h: News) {
    SendOk(b) && Evolves(a.tx, b.tx, h) && a.wire <= b.wire
  }

  lemma StepsTrans(a: Stream, b: Stream, c: Stream, h: News)
    requires Steps(a, b, h) && Steps(b, c, h)
    ensures Steps(a, c, h)
  {
    EvolvesTrans(a.tx, b.tx, c.tx, h);
  }

  /** Nothing of the sending side changed, and only acks or closes were put on the path. */
  ghost predicate TxSame(a: Stream, b: Stream) {
    && b.tx == a.tx && a.wire <= b.wire
    && forall p :: p in b.wire && p !in a.wire ==> p.Ack? || p.Close?
  }

  lemma TxSameSteps(a: Stream, b: Stream, h: News)
    requires SendOk(a) && TxSame(a, b)
    ensures Steps(a, b, h)
  {
    forall p | p in b.wire ensures PacketOk(b.tx, p) {}
  }

  lemma SendAckSame(s: Stream, t: real)
    ensures TxSame(s, SendAck(s, t))
  {
    var b := SendAck(s, t);
    forall p | p in b.wire && p !in s.wire ensures p.Ack? {
      assert p in b.wire[|s.wire|..];
    }
  }

  lemma EndStreamSame(s: Stream, t: real)
    ensures TxSame(s, EndStream(s, t))
  {
  }

  lemma SendNextSteps(s: Stream, probe: bool, t: real, h: News)
    requires SendOk(s)
    ensures Steps(s, SendNext(s, probe, t), h)
    ensures NextChunk(s.tx, probe).offset >= 0 ==>
              SendNext(s, probe, t).tx.bytesInFlight > s.tx.bytesInFlight
    ensures SendNext(s, probe, t).cc.window == s.cc.window
  {
    hide TxOk, Evolves;
    SendNextKeeps(s, probe, t, h);
  }

  lemma {:induction false} FlushLoopKeeps(s: Stream, probes: nat, t: real, h: News)
    requires SendOk(s)
    ensures Steps(s, FlushLoop(s, probes, t), h)
    decreases probes, Max(0, s.cc.window.Floor + 1 - s.tx.bytesInFlight)
  {
    hide Tiled, ChunksOk, Counted, CarriedBut, WireOk, Evolves;
    if probes == 0 && WindowFull(s) {
      TxSameSteps(s, FlushLoop(s, probes, t), h);
    } else {
      var u := SendNext(s, probes > 0, t);
      SendNextSteps(s, probes > 0, t, h);
      if NextChunk(s.tx, probes > 0).offset >= 0 {
        var left := if probes > 0 then probes - 1 else 0;
        FlushLoopKeeps(u, left, t, h);
        StepsTrans(s, u, FlushLoop(u, left, t), h);
      }
    }
  }

  lemma FlushKeeps(s: Stream, probes: nat, t: real, h: News)
    requires SendOk(s)
    ensures Steps(s, Flush(s, probes, t), h)
  {
    if s.life.open && !s.life.gone {
      FlushLoopKeeps(s, probes, t, h);
    }
  }

  // ── acks ───────────────────────────────────────────────────────────────────────────

  /** `u` is `tx` less one packet in flight, and perhaps less some chunks. */
  ghost predicate Lands(tx: Tx, u: Tx, pn: nat) {
    && pn in tx.inFlight
    && u == tx.(inFlight := tx.inFlight - {pn}, bytesInFlight := tx.bytesInFlight - tx.inFlight[pn].size,
                chunks := u.chunks, lost := u.lost)
    && (forall o :: o in u.chunks ==> o in tx.chunks && u.chunks[o] == tx.chunks[o])
  }

  lemma LandsCore(tx: Tx, u: Tx, pn: nat)
    requires TxCore(tx) && Lands(tx, u, pn)
    ensures TxCore(u)
  {
    SumMapSplit(tx.inFlight, SizeOf(), pn);
    LandsChunks(tx, u, pn);
  }

  lemma LandsChunks(tx: Tx, u: Tx, pn: nat)
    requires ChunksOk(tx) && Tiled(tx) && Lands(tx, u, pn)
    ensures ChunksOk(u) && Tiled(u)
  {
    forall a | a in u.chunks ensures Carries(u, a, u.chunks[a]) { assert Carries(tx, a, tx.chunks[a]); }
  }

  /** Taking a packet out of the flight, and its chunk with it. */
  lemma AckOneKeeps(w: Walk, pn: int, largest: int, h: News)
    requires TxOk(w.tx) && Names(h.ranges, pn)
    ensures TxOk(AckOne(w, pn, largest).tx) && Evolves(w.tx, AckOne(w, pn, largest).tx, h)
  {
    if pn >= 0 && pn in w.tx.inFlight {
      LandsCore(w.tx, AckOne(w, pn, largest).tx, pn);
      AckOneCarried(w, pn, largest);
      AckOneEvolves(w, pn, largest, h);
    }
  }

  lemma AckOneEvolves(w: Walk, pn: nat, largest: int, h: News)
    requires NumbersOk(w.tx) && Names(h.ranges, pn) && pn in w.tx.inFlight
    ensures Evolves(w.tx, AckOne(w, pn, largest).tx, h)
  {
    var tx, u := w.tx, AckOne(w, pn, largest).tx;
    forall o | Forgotten(u, o)
      ensures Forgotten(tx, o) || AckedAt(u, h.ranges, o)
    {
      if o == tx.inFlight[pn].offset { assert u.numbers[pn] == o; }
    }
  }

  lemma AckOneCarried(w: Walk, pn: nat, largest: int)
    requires CarriedBut(w.tx, -1) && pn in w.tx.inFlight
    ensures CarriedBut(AckOne(w, pn, largest).tx, -1)
  {
    var tx, u := w.tx, AckOne(w, pn, largest).tx;
    forall o | o in u.chunks
      ensures o in u.lost || InAir(u, o)
    {
      if InAir(tx, o) {
        var at :| at in tx.inFlight && tx.inFlight[at].offset == o;
        assert u.inFlight[at].offset == o;
      }
    }
  }

  lemma {:induction false} AckRunKeeps(w: Walk, lo: int, hi: int, largest: int, h: News)
    requires TxOk(w.tx) && forall pn :: lo <= pn <= hi ==> Names(h.ranges, pn)
    ensures TxOk(AckRun(w, lo, hi, largest).tx) && Evolves(w.tx, AckRun(w, lo, hi, largest).tx, h)
    decreases hi + 1 - lo
  {
    if lo <= hi {
      AckOneKeeps(w, lo, largest, h);
      var u := AckOne(w, lo, largest);
      AckRunKeeps(u, lo + 1, hi, largest, h);
      EvolvesTrans(w.tx, u.tx, AckRun(w, lo, hi, largest).tx, h);
    }
  }

  /** Walking an ack, whatever its ranges, forgets only chunks it names. */
  lemma {:induction false} AckAllKeeps(w: Walk, rest: seq<Range>, below: int, largest: int, h: News)
    requires TxOk(w.tx)
    requires forall r :: r in rest ==> r in h.ranges
    ensures TxOk(AckAll(w, rest, below, largest).tx)
    ensures Evolves(w.tx, AckAll(w, rest, below, largest).tx, h)
    decreases |rest|
  {
    if rest != [] {
      var hi, lo := Min(rest[0].hi, below), Max(rest[0].lo, w.tx.oldestPn);
      assert rest[0] in h.ranges;
      if lo > hi {
        AckAllKeeps(w, rest[1..], below, largest, h);
      } else {
        RangeNames(h.ranges, rest[0], lo, hi);
        AckRunKeeps(w, lo, hi, largest, h);
        var u := AckRun(w, lo, hi, largest);
        AckAllKeeps(u, rest[1..], lo - 1, largest, h);
        EvolvesTrans(w.tx, u.tx, AckAll(w, rest, below, largest).tx, h);
      }
    }
  }

  lemma RangeNames(ranges: seq<Range>, r: Range, lo: int, hi: int)
    requires r in ranges && r.lo <= lo && hi <= r.hi
    ensures forall pn :: lo <= pn <= hi ==> Names(ranges, pn)
  {
    var k :| 0 <= k < |ranges| && ranges[k] == r;
    forall pn | lo <= pn <= hi
      ensures Names(ranges, pn)
    {
      assert ranges[k].lo <= pn <= ranges[k].hi;
    }
  }

  /** Bookkeeping around the flight: credit and numbers go up, nothing in flight is passed. */
  ghost predicate Touches(a: Tx, b: Tx) {
    && b == a.(oldestPn := b.oldestPn, nextPn := b.nextPn, largestAcked := b.largestAcked,
               peerCredit := b.peerCredit, packetBytes := b.packetBytes, probes := b.probes, reprobe := b.reprobe)
    && a.peerCredit <= b.peerCredit && a.nextPn <= b.nextPn && b.oldestPn <= b.nextPn
    && b.largestAcked < b.nextPn
    && forall pn :: pn in b.inFlight ==> b.oldestPn <= pn
  }

  lemma TouchKeeps(a: Tx, b: Tx, h: News)
    requires TxOk(a) && Touches(a, b) && b.peerCredit <= Max(a.peerCredit, h.credit)
    ensures TxOk(b) && Evolves(a, b, h)
  {
    InAirSame(a, b);
    TouchChunks(a, b);
  }

  lemma TouchChunks(a: Tx, b: Tx)
    requires ChunksOk(a) && Touches(a, b)
    ensures ChunksOk(b)
  {
    forall o | o in b.chunks ensures Carries(b, o, b.chunks[o]) { assert Carries(a, o, a.chunks[o]); }
  }

  lemma {:induction false} AdvanceTouches(tx: Tx)
    requires NumbersOk(tx)
    ensures Touches(tx, AdvanceOldest(tx)) && AdvanceOldest(tx).peerCredit == tx.peerCredit
    ensures var u := AdvanceOldest(tx); u.oldestPn == u.nextPn || u.oldestPn in u.inFlight
    decreases tx.nextPn - tx.oldestPn
  {
    if tx.oldestPn < tx.nextPn && tx.oldestPn !in tx.inFlight {
      AdvanceTouches(tx.(oldestPn := tx.oldestPn + 1));
    }
  }

  lemma AdvanceKeeps(tx: Tx, h: News)
    requires TxOk(tx)
    ensures TxOk(AdvanceOldest(tx)) && Evolves(tx, AdvanceOldest(tx), h)
  {
    AdvanceTouches(tx);
    TouchKeeps(tx, AdvanceOldest(tx), h);
  }

  /** The fields besides these do not matter to what a sender must keep. */
  lemma InAirSame(a: Tx, b: Tx)
    requires b.inFlight == a.inFlight && b.chunks == a.chunks && b.lost == a.lost
    requires CarriedBut(a, -1)
    ensures CarriedBut(b, -1)
  {
    forall o | o in b.chunks
      ensures o in b.lost || InAir(b, o)
    {
      if InAir(a, o) {
        var pn :| pn in a.inFlight && a.inFlight[pn].offset == o;
        assert b.inFlight[pn].offset == o;
      }
    }
  }

  // ── loss ───────────────────────────────────────────────────────────────────────────

  /** A packet declared lost leaves its chunk to be resent. */
  lemma LoseKeeps(tx: Tx, pn: nat, h: News)
    requires TxOk(tx) && pn in tx.inFlight
    ensures TxOk(Lose(tx, pn)) && Evolves(tx, Lose(tx, pn), h)
  {
    LandsCore(tx, Lose(tx, pn), pn);
    LoseCarried(tx, pn);
  }

  lemma LoseCarried(tx: Tx, pn: nat)
    requires CarriedBut(tx, -1) && pn in tx.inFlight
    ensures CarriedBut(Lose(tx, pn), -1)
  {
    var u := Lose(tx, pn);
    forall o | o in u.chunks
      ensures o in u.lost || InAir(u, o)
    {
      if InAir(tx, o) {
        var at :| at in tx.inFlight && tx.inFlight[at].offset == o;
        assert at != pn ==> u.inFlight[at].offset == o;
      }
    }
  }

  lemma ScanOneKeeps(c: Scan, pn: nat, v: Verdict, h: News)
    requires TxOk(c.tx)
    ensures TxOk(ScanOne(c, pn, v).tx) && Evolves(c.tx, ScanOne(c, pn, v).tx, h)
  {
    if pn in c.tx.inFlight && IsLost(v, pn, c.tx.inFlight[pn]) {
      LoseKeeps(c.tx, pn, h);
      assert ScanOne(c, pn, v).tx == Lose(c.tx, pn);
    } else {
      assert ScanOne(c, pn, v).tx == c.tx;
    }
  }

  lemma {:induction false} ScanFromKeeps(c: Scan, pn: nat, v: Verdict, h: News)
    requires TxOk(c.tx)
    ensures TxOk(ScanFrom(c, pn, v).tx) && Evolves(c.tx, ScanFrom(c, pn, v).tx, h)
    decreases v.largestAcked - pn
  {
    if pn < v.largestAcked {
      ScanOneKeeps(c, pn, v, h);
      ScanFromKeeps(ScanOne(c, pn, v), pn + 1, v, h);
      EvolvesTrans(c.tx, ScanOne(c, pn, v).tx, ScanFrom(c, pn, v).tx, h);
    }
  }

  lemma DetectLossKeeps(s: Stream, t: real, h: News)
    requires SendOk(s)
    ensures Steps(s, DetectLoss(s, t), h)
  {
    AdvanceKeeps(s.tx, h);
    var tx := AdvanceOldest(s.tx);
    var start := Scan(tx, PosInf, [], NegInf, PosInf, false);
    ScanFromKeeps(start, tx.oldestPn, LossVerdict(s, t), h);
    var c := LossScan(s, t);
    EvolvesTrans(s.tx, tx, c.tx, h);
    AdvanceKeeps(c.tx, h);
    EvolvesTrans(s.tx, c.tx, AdvanceOldest(c.tx), h);
    WireStable(s, AdvanceOldest(c.tx), h);
    var d := DetectLoss(s, t);
    assert WireOk(d) by { forall p | p in d.wire ensures PacketOk(d.tx, p) { assert PacketOk(s.(tx := d.tx).tx, p); } }
  }

  // ── the other handlers ─────────────────────────────────────────────────────────────

  lemma TouchSteps(s: Stream, b: Stream, h: News)
    requires SendOk(s) && Touches(s.tx, b.tx) && b.wire == s.wire
    requires b.tx.peerCredit <= Max(s.tx.peerCredit, h.credit)
    ensures Steps(s, b, h)
  {
    TouchKeeps(s.tx, b.tx, h);
    WireStable(s, b.tx, h);
    forall p | p in b.wire ensures PacketOk(b.tx, p) { assert PacketOk(s.(tx := b.tx).tx, p); }
  }

  lemma SendProbeKeeps(s: Stream, t: real, h: News)
    requires SendOk(s)
    ensures Steps(s, SendProbe(s, t), h)
  {
    var b := SendProbe(s, t);
    TouchSteps(s, b.(wire := s.wire), h);
    forall p | p in b.wire ensures PacketOk(b.tx, p) {
      if p in s.wire { assert PacketOk(b.(wire := s.wire).tx, p); }
    }
  }

  lemma StartProbeKeeps(s: Stream, t: real, h: News)
    requires SendOk(s)
    ensures Steps(s, StartProbe(s, t), h)
  {
    hide Tiled, ChunksOk, Counted, CarriedBut, WireOk, Evolves;
    var m := s.(tx := s.tx.(probes := []));
    TouchSteps(s, m, h);
    SendProbeKeeps(m, t, h);
    StepsTrans(s, m, StartProbe(s, t), h);
  }

  lemma AcknowledgeKeeps(s: Stream, h: News)
    requires SendOk(s) && h.ranges != []
    ensures TxOk(Acknowledge(s, h.ranges).tx) && Evolves(s.tx, Acknowledge(s, h.ranges).tx, h)
  {
    AckAllKeeps(Walk(s.tx, s.cc, s.rtt.ptoCount, None), h.ranges, s.tx.nextPn - 1, Min(h.ranges[0].hi, s.tx.nextPn - 1), h);
  }

  lemma {:induction false} AckRunFrame(w: Walk, lo: int, hi: int, largest: int)
    ensures var u := AckRun(w, lo, hi, largest).tx;
            u.nextPn == w.tx.nextPn && u.largestAcked == w.tx.largestAcked && u.oldestPn == w.tx.oldestPn
            && u.nextOffset == w.tx.nextOffset && u.numbers == w.tx.numbers && u.said == w.tx.said
            && u.peerCredit == w.tx.peerCredit
    decreases hi + 1 - lo
  {
    if lo <= hi { AckRunFrame(AckOne(w, lo, largest), lo + 1, hi, largest); }
  }

  lemma {:induction false} AckAllFrame(w: Walk, rest: seq<Range>, below: int, largest: int)
    ensures var u := AckAll(w, rest, below, largest).tx;
            u.nextPn == w.tx.nextPn && u.largestAcked == w.tx.largestAcked && u.oldestPn == w.tx.oldestPn
            && u.nextOffset == w.tx.nextOffset && u.numbers == w.tx.numbers && u.said == w.tx.said
            && u.peerCredit == w.tx.peerCredit
    decreases |rest|
  {
    if rest != [] {
      var hi, lo := Min(rest[0].hi, below), Max(rest[0].lo, w.tx.oldestPn);
      if lo > hi {
        AckAllFrame(w, rest[1..], below, largest);
      } else {
        AckRunFrame(w, lo, hi, largest);
        AckAllFrame(AckRun(w, lo, hi, largest), rest[1..], lo - 1, largest);
      }
    }
  }

  lemma AfterWalkKeeps(s: Stream, h: News)
    requires SendOk(s) && h.ranges != []
    ensures Steps(s, AfterWalk(s, h.ranges), h)
  {
    hide SumMap, Carries, AckAll, Exonerate, NamesAny;
    var w := Acknowledge(s, h.ranges);
    AcknowledgeKeeps(s, h);
    AckAllFrame(Walk(s.tx, s.cc, s.rtt.ptoCount, None), h.ranges, s.tx.nextPn - 1, Min(h.ranges[0].hi, s.tx.nextPn - 1));
    var b := AfterWalk(s, h.ranges);
    var m := ProbeAcked(s.(tx := w.tx, cc := w.cc, rtt := s.rtt.(ptoCount := w.ptoCount)), h.ranges).tx;
    var k := m.(largestAcked := Max(m.largestAcked, Min(h.ranges[0].hi, s.tx.nextPn - 1)));
    TouchKeeps(w.tx, k, h);
    AdvanceKeeps(k, h);
    EvolvesTrans(s.tx, w.tx, k, h);
    EvolvesTrans(s.tx, k, b.tx, h);
    WireStable(s, b.tx, h);
    forall p | p in b.wire ensures PacketOk(b.tx, p) { assert PacketOk(s.(tx := b.tx).tx, p); }
  }

  lemma ReprobeKeeps(s: Stream, t: real, h: News)
    requires SendOk(s)
    ensures Steps(s, Reprobe(s, t), h)
  {
    hide Tiled, ChunksOk, Counted, CarriedBut, WireOk, Evolves;
    TxSameSteps(s, s, h);
    if s.tx.reprobe && s.rtt.ptoCount == 0 {
      var m := s.(tx := s.tx.(reprobe := false));
      TouchSteps(s, m, h);
      StartProbeKeeps(m, t, h);
      StepsTrans(s, m, StartProbe(m, t), h);
    }
  }

  lemma AckBodyKeeps(s: Stream, delay: nat, h: News, t: real)
    requires SendOk(s) && h.ranges != []
    ensures Steps(s, AckBody(s, delay, h.ranges, t), h)
  {
    hide Tiled, ChunksOk, Counted, CarriedBut, WireOk, Evolves;
    AfterWalkKeeps(s, h);
    var walked := AfterWalk(s, h.ranges);
    var timed := Timed(walked, Acknowledge(s, h.ranges).newest, delay, t);
    assert TxSame(walked, timed);
    TxSameSteps(walked, timed, h);
    StepsTrans(s, walked, timed, h);
    DetectLossKeeps(timed, t, h);
    var judged := DetectLoss(timed, t);
    StepsTrans(s, timed, judged, h);
    ReprobeKeeps(judged, t, h);
    StepsTrans(s, judged, Reprobe(judged, t), h);
  }

  lemma OnAckKeeps(s: Stream, credit: nat, delay: nat, ranges: seq<Range>, t: real)
    requires SendOk(s)
    ensures Steps(s, OnAck(s, credit, delay, ranges, t), News(credit, ranges))
  {
    hide Tiled, ChunksOk, Counted, CarriedBut, WireOk, Evolves;
    var h := News(credit, ranges);
    var heard := s.(tx := s.tx.(peerCredit := Max(s.tx.peerCredit, credit)));
    TouchSteps(s, heard, h);
    var acked := if ranges == [] then heard else AckBody(heard, delay, ranges, t);
    if ranges != [] {
      AckBodyKeeps(heard, delay, h, t);
      StepsTrans(s, heard, acked, h);
    }
    if acked.life.closing && Buffered(acked.tx) == 0 {
      EndStreamSame(acked, t);
      TxSameSteps(acked, EndStream(acked, t), h);
      StepsTrans(s, acked, EndStream(acked, t), h);
    } else {
      FlushKeeps(acked, 0, t, h);
      StepsTrans(s, acked, Flush(acked, 0, t), h);
    }
  }

  lemma OnRecoveryKeeps(s: Stream, t: real)
    requires SendOk(s)
    ensures Steps(s, OnRecovery(s, t), Quiet())
  {
    hide Tiled, ChunksOk, Counted, CarriedBut, WireOk, Evolves;
    var woken := s.(life := s.life.(recoveryAt := PosInf));
    TxSameSteps(s, woken, Quiet());
    if |s.tx.inFlight| == 0 {
    } else if Lt(Fin(t), RecoveryDue(s.rtt)) {
      TxSameSteps(s, Arm(woken), Quiet());
    } else if s.rtt.lossTime != PosInf {
      LossFlushKeeps(woken, t);
      StepsTrans(s, woken, OnRecovery(s, t), Quiet());
    } else if PeerGone(s, t) {
      EndStreamSame(woken, t);
      TxSameSteps(woken, EndStream(woken, t), Quiet());
      StepsTrans(s, woken, EndStream(woken, t), Quiet());
    } else {
      TimedOutKeeps(woken, t);
      StepsTrans(s, woken, Flush(TimedOut(woken), 2, t), Quiet());
    }
  }

  lemma LossFlushKeeps(s: Stream, t: real)
    requires SendOk(s)
    ensures Steps(s, Flush(DetectLoss(s, t), 0, t), Quiet())
  {
    hide Tiled, ChunksOk, Counted, CarriedBut, WireOk, Evolves;
    DetectLossKeeps(s, t, Quiet());
    var d := DetectLoss(s, t);
    FlushKeeps(d, 0, t, Quiet());
    StepsTrans(s, d, Flush(d, 0, t), Quiet());
  }

  lemma TimedOutKeeps(s: Stream, t: real)
    requires SendOk(s)
    ensures Steps(s, Flush(TimedOut(s), 2, t), Quiet())
  {
    hide Tiled, ChunksOk, Counted, CarriedBut, WireOk, Evolves;
    var m := TimedOut(s);
    TouchSteps(s, m, Quiet());
    FlushKeeps(m, 2, t, Quiet());
    StepsTrans(s, m, Flush(m, 2, t), Quiet());
  }

  lemma TickSame(s: Stream, t: real)
    ensures TxSame(s, Tick(s, t))
  {
    SendAckSame(s, t);
    EndStreamSame(s, t);
  }

  lemma OnWakeKeeps(s: Stream, t: real)
    requires SendOk(s)
    ensures Steps(s, OnWake(s, t), Quiet())
  {
    hide Tiled, ChunksOk, Counted, CarriedBut, WireOk, Evolves;
    EndStreamSame(s, t);
    TickSame(s, t);
    TxSameSteps(s, EndStream(s, t), Quiet());
    TxSameSteps(s, Tick(s, t), Quiet());
    TxSameSteps(s, s, Quiet());
    if !s.life.gone && !Le(s.life.lingerAt, Fin(t)) {
      var ticked := if Le(s.life.liveAt, Fin(t)) then Tick(s, t) else s;
      var recovered := if !ticked.life.gone && Le(ticked.life.recoveryAt, Fin(t)) then OnRecovery(ticked, t) else ticked;
      OnRecoveryKeeps(ticked, t);
      TxSameSteps(ticked, ticked, Quiet());
      StepsTrans(s, ticked, recovered, Quiet());
      SendProbeKeeps(recovered, t, Quiet());
      StepsTrans(s, recovered, SendProbe(recovered, t), Quiet());
    }
  }

  lemma StartKeeps(s: Stream, t: real)
    requires SendOk(s)
    ensures Steps(s, Start(s, t), Quiet())
  {
    hide Tiled, ChunksOk, Counted, CarriedBut, WireOk, Evolves;
    TxSameSteps(s, s, Quiet());
    if !s.life.gone && !s.life.open {
      var up := Opened(s, t);
      var acked := if up.rx.ranges != [] then SendAck(up, t) else up;
      SendAckSame(up, t);
      assert TxSame(s, acked);
      TxSameSteps(s, acked, Quiet());
      FlushKeeps(acked, 0, t, Quiet());
      var flushed := Flush(acked, 0, t);
      StepsTrans(s, acked, flushed, Quiet());
      TouchSteps(flushed, Start(s, t), Quiet());
      StepsTrans(s, flushed, Start(s, t), Quiet());
    }
  }

  lemma RepathKeeps(s: Stream, rttMs: real, t: real)
    requires SendOk(s)
    ensures Steps(s, Repath(s, rttMs, t), Quiet())
  {
    hide Tiled, ChunksOk, Counted, CarriedBut, WireOk, Evolves;
    TxSameSteps(s, s, Quiet());
    if !s.life.gone {
      var m := Forget(s, rttMs, t);
      TouchSteps(s, m, Quiet());
      SendAckSame(m, t);
      TxSameSteps(m, SendAck(m, t), Quiet());
      StepsTrans(s, m, SendAck(m, t), Quiet());
      FlushKeeps(SendAck(m, t), 0, t, Quiet());
      var f := Flush(SendAck(m, t), 0, t);
      StepsTrans(s, SendAck(m, t), f, Quiet());
      StartProbeKeeps(f, t, Quiet());
      StepsTrans(s, f, StartProbe(f, t), Quiet());
    }
  }

  lemma WriteKeeps(s: Stream, bytes: seq<byte>)
    requires SendOk(s)
    ensures Steps(s, s.(tx := s.tx.(said := s.tx.said + bytes)), Quiet())
  {
    var u := s.tx.(said := s.tx.said + bytes);
    InAirSame(s.tx, u);
    WriteChunks(s.tx, bytes);
    WireStable(s, u, Quiet());
  }

  lemma WriteChunks(tx: Tx, bytes: seq<byte>)
    requires ChunksOk(tx)
    ensures ChunksOk(tx.(said := tx.said + bytes))
  {
    var u := tx.(said := tx.said + bytes);
    forall o | o in u.chunks ensures Carries(u, o, u.chunks[o]) { assert Carries(tx, o, tx.chunks[o]); }
  }

  lemma SendKeeps(s: Stream, bytes: seq<byte>, t: real)
    requires SendOk(s)
    ensures Steps(s, Send(s, bytes, t), Quiet())
  {
    hide Tiled, ChunksOk, Counted, CarriedBut, WireOk, Evolves;
    TxSameSteps(s, s, Quiet());
    if !(Refuses(s, |bytes|) || bytes == []) {
      WriteKeeps(s, bytes);
      var m := s.(tx := s.tx.(said := s.tx.said + bytes));
      FlushKeeps(m, 0, t, Quiet());
      StepsTrans(s, m, Flush(m, 0, t), Quiet());
    }
  }
}
