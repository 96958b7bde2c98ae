/** The reliable byte stream over datagrams (WASM/transport/src/stream.js `UdpStream`), as
    functions on values: what each handler makes of the stream's state, the packets it puts
    on the path included. The class in UdpStream.dfy is proved to compute these functions;
    the other Stream*.dfy files prove what they promise.

    Times and the congestion window are reals, packet numbers and offsets are unbounded, and
    a handler reads the clock once. */
module StreamSpec {
  import opened Base
  import opened AckRanges

  const DATA_HEADER: nat := 27
  const BASE_PACKET: nat := 1200
  const MAX_PACKET: nat := 1452
  const MAX_PROBES: nat := 3
  const INITIAL_WINDOW: Window := 12000.0
  const MIN_WINDOW: Window := 2400.0
  const FLOWS: real := 8.0
  const PERSISTENT_PTOS: real := 3.0
  const MAX_SUSPECTS: nat := 32
  const CREDIT: nat := 0x10_0000
  const MAX_CREDIT: nat := 8 * CREDIT
  const MIN_CHUNK: nat := 256
  const MAX_READ: nat := 256 * 1024
  const MAX_BUFFERED: nat := 16 * 1024 * 1024
  const ACK_DELAY_MS: real := 25.0
  const INITIAL_RTT_MS: real := 333.0
  const KEEPALIVE_MS: real := 5000.0
  const SILENT_MS: real := 30000.0
  const MAX_PTOS: nat := 6
  const DEAD_MS: real := 10000.0
  const LINGER_MS: real := 10000.0

  /** The congestion window never falls below two base packets, which fit any one packet. */
  type Window = w: real | w >= 2400.0 witness 2400.0

  /** The two sizes a path is taken to carry. */
  type PacketSize = n: nat | n == 1200 || n == 1452 witness 1200

  datatype Packet =
    | Data(pn: nat, offset: nat, floor: nat, bytes: seq<byte>)
    | Ack(credit: nat, delay: nat, ranges: seq<Range>)
    | Probe(pn: nat)
    | Close

  datatype Sent = Sent(offset: nat, size: nat, time: real)
  datatype Undo = Undo(window: Window, threshold: Ext)

  /** The sending side. `said`, `bounds` and `numbers` are history: every byte written, every
      offset where the stream was ever cut between two chunks (its cells lie between them,
      acked or not), and the offset each DATA packet number carried. The bytes written and not yet sent are said[nextOffset..]. */
  datatype Tx = Tx(
    said: seq<byte>, bounds: set<nat>, numbers: map<nat, nat>,
    nextOffset: nat, chunks: map<nat, seq<byte>>, lost: seq<nat>,
    inFlight: map<nat, Sent>, oldestPn: nat, nextPn: nat, largestAcked: int, bytesInFlight: int,
    peerCredit: nat, packetBytes: PacketSize, probes: seq<nat>, reprobe: bool)

  datatype Congestion = Congestion(
    window: Window, threshold: Ext, recoveryStart: Ext,
    suspects: seq<nat>, undo: Option<Undo>, windowLimited: bool)

  datatype Rtt = Rtt(
    srtt: real, rttvar: real, minRtt: Ext, latest: real,
    ptoCount: nat, lastSentData: real, lossTime: Ext)

  /** The receiving side. `handed` is history: every byte the reader was given. */
  datatype Rx = Rx(
    handed: seq<byte>, taken: nat, held: seq<seq<byte>>,
    ahead: map<nat, seq<byte>>, aheadBytes: int, furthest: nat,
    ranges: seq<Range>, largestAt: real, unacked: nat,
    credit: nat, creditAt: Ext, creditEnd: nat, advertised: nat,
    turnDue: bool, hasReader: bool, reading: bool)

  datatype Life = Life(
    open: bool, closing: bool, gone: bool, lastSent: real, lastHeard: real,
    recoveryAt: Ext, probeAt: Ext, liveAt: Ext, lingerAt: Ext)

  /** One end of a stream, and every packet it has put on the path. */
  datatype Stream = Stream(tx: Tx, cc: Congestion, rtt: Rtt, rx: Rx, life: Life, wire: seq<Packet>)

  function Fresh(): Stream {
    Stream(
      Tx([], {0}, map[], 0, map[], [], map[], 0, 0, -1, 0, CREDIT, BASE_PACKET, [], false),
      Congestion(INITIAL_WINDOW, PosInf, NegInf, [], None, false),
      Rtt(INITIAL_RTT_MS, INITIAL_RTT_MS / 2.0, PosInf, 0.0, 0, 0.0, PosInf),
      Rx([], 0, [], map[], 0, 0, [], 0.0, 0, CREDIT, NegInf, 0, CREDIT, false, false, false),
      Life(false, false, false, 0.0, 0.0, PosInf, PosInf, PosInf, PosInf),
      [])
  }

  // ── receiving ──────────────────────────────────────────────────────────────────────

  /** The offset past the last byte received in order. */
  function End(rx: Rx): nat { rx.taken + |Flat(rx.held)| }

  /** A two-byte field: a value past 16 bits is truncated as the field truncates it. */
  function AckDelay(sinceLargest: real): nat { Min(0xffff, (sinceLargest + 0.5).Floor) % 0x10000 }

  function Copies(p: Packet, n: nat): seq<Packet> { seq(n, _ => p) }

  function SendAck(s: Stream, t: real): Stream {
    if !s.life.open || s.life.gone then s
    else
      var credit := s.rx.taken + s.rx.credit;
      var copies := if credit > s.rx.advertised && s.rx.furthest >= s.rx.advertised then 3 else 1;
      var p := Ack(credit, AckDelay(t - s.rx.largestAt), s.rx.ranges);
      s.(rx := s.rx.(unacked := 0, advertised := credit),
         life := s.life.(lastSent := t),
         wire := s.wire + Copies(p, copies))
  }

  function Largest(r: seq<Range>): int { if r == [] then -1 else r[0].hi }

  function Note(s: Stream, pn: nat): Stream {
    s.(rx := s.rx.(
      ranges := Record(s.rx.ranges, pn),
      largestAt := if pn > Largest(s.rx.ranges) then s.life.lastHeard else s.rx.largestAt))
  }

  /** Note `pn` as received: acked at once when out of order, else with the turn. */
  function Received(s: Stream, pn: nat, t: real): Stream {
    var noted := Note(s, pn).(rx := Note(s, pn).rx.(turnDue := true));
    if pn != Largest(s.rx.ranges) + 1 then SendAck(noted, t)
    else noted.(rx := noted.rx.(unacked := noted.rx.unacked + 1))
  }

  /** Move what waits at the in-order end out of `ahead`, as far as it reaches. */
  function Absorb(rx: Rx): Rx
    decreases |rx.ahead|
  {
    if End(rx) in rx.ahead then
      var next := rx.ahead[End(rx)];
      Absorb(rx.(ahead := rx.ahead - {End(rx)},
                 aheadBytes := rx.aheadBytes - (DATA_HEADER + |next|),
                 held := rx.held + [next]))
    else rx
  }

  function ClearPassed(rx: Rx): Rx {
    if End(rx) == rx.furthest then rx.(ahead := map[], aheadBytes := 0) else rx
  }

  /** The next bytes in order, and whatever they close the gap to. */
  function Append(rx: Rx, bytes: seq<byte>): Rx {
    ClearPassed(Absorb(rx.(held := rx.held + [bytes])))
  }

  /** Bytes past a gap wait under their offset. */
  function Park(rx: Rx, offset: nat, bytes: seq<byte>): Rx {
    rx.(ahead := rx.ahead[offset := bytes], aheadBytes := rx.aheadBytes + DATA_HEADER + |bytes|)
  }

  function Store(rx: Rx, offset: nat, bytes: seq<byte>): Rx {
    var seen := rx.(furthest := Max(rx.furthest, offset + |bytes|));
    if offset == End(seen) then Append(seen, bytes)
    else if offset > End(seen) && offset !in seen.ahead then Park(seen, offset, bytes)
    else seen
  }

  /** More is buffered than two credits, counted as packets or as slices. */
  predicate Overrun(rx: Rx) {
    rx.aheadBytes > 2 * rx.credit || (|rx.held| + |rx.ahead|) * MIN_CHUNK > 2 * rx.credit
  }

  function Fail(s: Stream): Stream { s.(life := s.life.(gone := true)) }

  /** Forget the ranges the sender no longer waits on, and store the chunk. */
  function Keep(s: Stream, offset: nat, floor: nat, bytes: seq<byte>): Stream {
    var stored := s.(rx := Store(s.rx.(ranges := Trim(s.rx.ranges, floor)), offset, bytes));
    if Overrun(stored.rx) then Fail(stored) else stored
  }

  function OnChunk(s: Stream, pn: nat, offset: nat, floor: nat, bytes: seq<byte>, t: real): Stream {
    if offset + |bytes| > s.rx.taken + s.rx.credit then s
    else Keep(Received(s, pn, t), offset, floor, bytes)
  }

  /** The pieces left once `n` bytes are taken off the front. */
  function DropBytes(ps: seq<seq<byte>>, n: nat): seq<seq<byte>> {
    if n == 0 || ps == [] then ps
    else if |ps[0]| <= n then DropBytes(ps[1..], n - |ps[0]|)
    else [ps[0][n..]] + ps[1..]
  }

  /** One read, of at most MAX_READ bytes, if the reader is free. */
  function HandOver(s: Stream): Stream {
    var ready := Flat(s.rx.held);
    if !s.rx.reading && s.rx.hasReader && |ready| > 0 && !s.life.gone then
      var n := Min(|ready|, MAX_READ);
      s.(rx := s.rx.(handed := s.rx.handed + ready[..n], taken := s.rx.taken + n,
                     held := DropBytes(s.rx.held, n), reading := true))
    else s
  }

  /** The credit doubles when its end was reached sooner than two smoothed round trips. */
  function TuneCredit(s: Stream, t: real): Stream {
    if s.rx.taken >= s.rx.creditEnd then
      var quick := s.rx.creditAt.Fin? && t - s.rx.creditAt.r < 2.0 * s.rtt.srtt;
      var credit := if quick then Min(2 * s.rx.credit, MAX_CREDIT) else s.rx.credit;
      s.(rx := s.rx.(credit := credit, creditAt := Fin(t), creditEnd := s.rx.taken + credit))
    else s
  }

  function Deliver(s: Stream, t: real): Stream {
    var tuned := TuneCredit(HandOver(s), t);
    if 2 * (tuned.rx.taken + tuned.rx.credit - tuned.rx.advertised) >= tuned.rx.credit
    then SendAck(tuned, t) else tuned
  }

  function Turn(s: Stream, t: real): Stream {
    var d := Deliver(s.(rx := s.rx.(turnDue := false)), t);
    if d.rx.unacked > 0 then SendAck(d, t) else d
  }

  function Reader(s: Stream, t: real): Stream { Deliver(s.(rx := s.rx.(hasReader := true)), t) }

  function ReadDone(s: Stream, t: real): Stream { Deliver(s.(rx := s.rx.(reading := false)), t) }

  // ── sending ────────────────────────────────────────────────────────────────────────

  ghost function Least(keys: set<nat>): (k: nat)
    requires keys != {}
    ensures k in keys && forall j :: j in keys ==> k <= j
  {
    LeastExists(keys);
    var k :| k in keys && forall j :: j in keys ==> k <= j;
    k
  }

  lemma {:induction false} LeastExists(keys: set<nat>)
    requires keys != {}
    ensures exists k :: k in keys && forall j :: j in keys ==> k <= j
  {
    var k :| k in keys;
    if keys - {k} != {} {
      LeastExists(keys - {k});
      var m :| m in keys - {k} && forall j :: j in keys - {k} ==> m <= j;
      var least := if m < k then m else k;
      assert forall j :: j in keys ==> j == k || j in keys - {k};
      assert least in keys && forall j :: j in keys ==> least <= j;
    } else {
      assert keys == {k};
    }
  }

  /** The least offset with a chunk, or -1 when all are acked. */
  ghost function OldestChunk(tx: Tx): int {
    if tx.chunks.Keys == {} then -1 else Least(tx.chunks.Keys)
  }

  /** Written and not yet acked. */
  ghost function Buffered(tx: Tx): int {
    |tx.said| - (if OldestChunk(tx) < 0 then tx.nextOffset else OldestChunk(tx))
  }

  function AdvanceOldest(tx: Tx): Tx
    decreases tx.nextPn - tx.oldestPn
  {
    if tx.oldestPn < tx.nextPn && tx.oldestPn !in tx.inFlight
    then AdvanceOldest(tx.(oldestPn := tx.oldestPn + 1)) else tx
  }

  function Pto(rtt: Rtt): real { rtt.srtt + RMax(4.0 * rtt.rttvar, 1.0) + ACK_DELAY_MS }

  function RecoveryDue(rtt: Rtt): Ext {
    if rtt.lossTime != PosInf then rtt.lossTime
    else Fin(rtt.lastSentData + Pto(rtt) * Pow2(rtt.ptoCount))
  }

  function Arm(s: Stream): Stream {
    if s.life.gone || |s.tx.inFlight| == 0 then s
    else
      var at := RecoveryDue(s.rtt);
      if Le(s.life.recoveryAt, at) then s else s.(life := s.life.(recoveryAt := at))
  }

  function AddLost(lost: seq<nat>, offset: nat): seq<nat> {
    if offset in lost then lost else lost + [offset]
  }

  /** A chunk too long for the path becomes two, with a cut between them; the second is due to
      be resent. */
  function Fit(tx: Tx, offset: nat): (f: Tx)
    requires offset in tx.chunks
    ensures offset in f.chunks && DATA_HEADER + |f.chunks[offset]| <= f.packetBytes
  {
    var max := tx.packetBytes - DATA_HEADER;
    var chunk := tx.chunks[offset];
    if |chunk| <= max then tx
    else tx.(chunks := tx.chunks[offset := chunk[..max]][offset + max := chunk[max..]],
             bounds := tx.bounds + {offset + max},
             lost := AddLost(tx.lost, offset + max))
  }

  /** The lost offsets from the first that still names a chunk. */
  function LiveLost(lost: seq<nat>, chunks: map<nat, seq<byte>>): (l: seq<nat>)
    ensures l != [] ==> l[0] in chunks
    ensures forall o :: o in chunks && o in lost ==> o in l
  {
    if lost == [] || lost[0] in chunks then lost
    else
      assert forall o :: o in lost ==> o == lost[0] || o in lost[1..];
      LiveLost(lost[1..], chunks)
  }

  function NewBytes(tx: Tx): int {
    Min(Min(|tx.said| - tx.nextOffset, tx.packetBytes - DATA_HEADER), tx.peerCredit - tx.nextOffset)
  }

  function CutNew(tx: Tx): (c: Tx)
    requires NewBytes(tx) > 0
    ensures tx.nextOffset in c.chunks && DATA_HEADER + |c.chunks[tx.nextOffset]| <= c.packetBytes
  {
    var n := NewBytes(tx);
    tx.(chunks := tx.chunks[tx.nextOffset := tx.said[tx.nextOffset..tx.nextOffset + n]],
        bounds := tx.bounds + {tx.nextOffset + n},
        nextOffset := tx.nextOffset + n)
  }

  /** The state with a chunk ready to send, and its offset: in turn a resend, fresh bytes within
      the credit, and for a probe the least offset unacked; -1 when none applies. */
  datatype Next = Next(tx: Tx, offset: int)

  ghost function NextChunk(tx: Tx, probe: bool): (n: Next)
    ensures n.offset >= 0 ==>
              n.offset in n.tx.chunks && DATA_HEADER + |n.tx.chunks[n.offset]| <= n.tx.packetBytes
  {
    var live := LiveLost(tx.lost, tx.chunks);
    if live != [] then Next(Fit(tx.(lost := live[1..]), live[0]), live[0])
    else
      var dry := tx.(lost := []);
      if NewBytes(dry) > 0 then Next(CutNew(dry), dry.nextOffset)
      else if probe && OldestChunk(dry) >= 0 then Next(Fit(dry, OldestChunk(dry)), OldestChunk(dry))
      else Next(dry, -1)
  }

  /** No packet below this is waited on. */
  function SendFloor(tx: Tx): nat {
    if tx.probes == [] then tx.oldestPn else Min(tx.oldestPn, tx.probes[0])
  }

  function SendChunk(s: Stream, offset: nat, t: real): Stream
    requires offset in s.tx.chunks
  {
    var tx := s.tx;
    var chunk := tx.chunks[offset];
    var size := DATA_HEADER + |chunk|;
    s.(tx := tx.(nextPn := tx.nextPn + 1,
                 numbers := tx.numbers[tx.nextPn := offset],
                 inFlight := tx.inFlight[tx.nextPn := Sent(offset, size, t)],
                 bytesInFlight := tx.bytesInFlight + size),
       rtt := s.rtt.(lastSentData := t),
       life := s.life.(lastSent := t),
       wire := s.wire + [Data(tx.nextPn, offset, SendFloor(tx), chunk)])
  }

  predicate WindowFull(s: Stream) {
    (s.tx.bytesInFlight + s.tx.packetBytes) as real > s.cc.window
  }

  /** One turn of the send loop: the next chunk found, cut and sent. */
  ghost function SendNext(s: Stream, probe: bool, t: real): Stream
  {
    var n := NextChunk(s.tx, probe);
    if n.offset < 0 then s.(tx := n.tx, cc := s.cc.(windowLimited := false))
    else SendChunk(s.(tx := n.tx), n.offset, t)
  }

  ghost function FlushLoop(s: Stream, probes: nat, t: real): Stream
    decreases probes, Max(0, s.cc.window.Floor + 1 - s.tx.bytesInFlight)
  {
    if probes == 0 && WindowFull(s) then
      s.(cc := s.cc.(windowLimited := s.tx.lost != []
        || (s.tx.nextOffset < |s.tx.said| && s.tx.nextOffset < s.tx.peerCredit)))
    else if NextChunk(s.tx, probes > 0).offset < 0 then SendNext(s, probes > 0, t)
    else FlushLoop(SendNext(s, probes > 0, t), if probes > 0 then probes - 1 else 0, t)
  }

  ghost function Flush(s: Stream, probes: nat, t: real): Stream
  {
    if !s.life.open || s.life.gone then s else Arm(FlushLoop(s, probes, t))
  }

  // ── acks ───────────────────────────────────────────────────────────────────────────

  function Growth(packetBytes: nat, size: nat, window: Window): (g: real)
    ensures g >= 0.0
  {
    FLOWS * packetBytes as real * size as real / window
  }

  function Grow(cc: Congestion, packetBytes: nat, sent: Sent): Congestion {
    if Lt(cc.recoveryStart, Fin(sent.time)) && cc.windowLimited then
      cc.(window := cc.window + (if Lt(Fin(cc.window), cc.threshold) then sent.size as real
                                 else Growth(packetBytes, sent.size, cc.window)))
    else cc
  }

  /** What walking an ack's numbers has done so far. `newest` is the packet under the ack's
      largest number, if it was in flight. */
  datatype Walk = Walk(tx: Tx, cc: Congestion, ptoCount: nat, newest: Option<Sent>)

  function AckOne(w: Walk, pn: int, largest: int): Walk {
    if pn < 0 || pn !in w.tx.inFlight then w
    else
      var sent := w.tx.inFlight[pn];
      Walk(w.tx.(inFlight := w.tx.inFlight - {pn},
                 bytesInFlight := w.tx.bytesInFlight - sent.size,
                 chunks := w.tx.chunks - {sent.offset}),
           Grow(w.cc, w.tx.packetBytes, sent),
           0,
           if pn == largest then Some(sent) else w.newest)
  }

  function AckRun(w: Walk, lo: int, hi: int, largest: int): Walk
    decreases hi + 1 - lo
  {
    if lo > hi then w else AckRun(AckOne(w, lo, largest), lo + 1, hi, largest)
  }

  /** Each range is clamped below the floor of the one before it. */
  function AckAll(w: Walk, ranges: seq<Range>, below: int, largest: int): Walk
    decreases |ranges|
  {
    if ranges == [] then w
    else
      var hi, lo := Min(ranges[0].hi, below), Max(ranges[0].lo, w.tx.oldestPn);
      if lo > hi then AckAll(w, ranges[1..], below, largest)
      else AckAll(AckRun(w, lo, hi, largest), ranges[1..], lo - 1, largest)
  }

  function Unnamed(pns: seq<nat>, ranges: seq<Range>): seq<nat> {
    if pns == [] then []
    else if Names(ranges, pns[0]) then Unnamed(pns[1..], ranges)
    else [pns[0]] + Unnamed(pns[1..], ranges)
  }

  predicate NamesAny(ranges: seq<Range>, pns: seq<nat>) {
    exists i :: 0 <= i < |pns| && Names(ranges, pns[i])
  }

  /** An ack that names a probe: the path carries the large packets. */
  function ProbeAcked(s: Stream, ranges: seq<Range>): Stream {
    if NamesAny(ranges, s.tx.probes)
    then s.(tx := s.tx.(probes := [], packetBytes := MAX_PACKET), life := s.life.(probeAt := PosInf))
    else s
  }

  /** Suspects named are cleared; an undo with none left restores the window and threshold. */
  function Exonerate(cc: Congestion, ranges: seq<Range>): Congestion {
    var left := Unnamed(cc.suspects, ranges);
    if cc.undo.Some? && left == [] then
      cc.(suspects := left, window := RMax(cc.window, cc.undo.value.window),
          threshold := cc.undo.value.threshold, undo := None)
    else cc.(suspects := left)
  }

  function Sample(rtt: Rtt, latest: real, delay: real): Rtt {
    match rtt.minRtt
    case Fin(least) =>
      var minRtt := RMin(least, latest);
      var adjusted := if latest - delay >= minRtt then latest - delay else latest;
      rtt.(latest := latest, minRtt := Fin(minRtt),
           rttvar := 0.75 * rtt.rttvar + 0.25 * RAbs(rtt.srtt - adjusted),
           srtt := 0.875 * rtt.srtt + 0.125 * adjusted)
    case _ =>
      rtt.(latest := latest, minRtt := Fin(latest), srtt := latest, rttvar := latest / 2.0)
  }

  /** The loss scan over the numbers below the largest acked. */
  datatype Scan = Scan(tx: Tx, lossTime: Ext, lost: seq<nat>, lostSentAt: Ext, runFrom: Ext, persistent: bool)
  /** What a scan judges packets by. */
  datatype Verdict = Verdict(largestAcked: int, now: real, delay: real, persistence: real, recoveryStart: Ext)

  predicate IsLost(v: Verdict, pn: int, sent: Sent) {
    v.largestAcked - pn >= 3 || sent.time <= v.now - v.delay
  }

  /** A packet given up on: its chunk, unless acked by another, is to be sent again. */
  function Lose(tx: Tx, pn: nat): Tx
    requires pn in tx.inFlight
  {
    var sent := tx.inFlight[pn];
    tx.(inFlight := tx.inFlight - {pn},
        bytesInFlight := tx.bytesInFlight - sent.size,
        lost := if sent.offset in tx.chunks then AddLost(tx.lost, sent.offset) else tx.lost)
  }

  function ScanOne(c: Scan, pn: nat, v: Verdict): Scan {
    if pn !in c.tx.inFlight then c.(runFrom := PosInf)
    else
      var sent := c.tx.inFlight[pn];
      if !IsLost(v, pn, sent) then c.(lossTime := ExtMin(c.lossTime, Fin(sent.time + v.delay)))
      else
        var d := c.(tx := Lose(c.tx, pn), lostSentAt := ExtMax(c.lostSentAt, Fin(sent.time)), lost := c.lost + [pn]);
        if Le(Fin(sent.time), v.recoveryStart) then d
        else if d.runFrom == PosInf then d.(runFrom := Fin(sent.time))
        else if d.runFrom.Fin? && sent.time - d.runFrom.r > v.persistence then d.(persistent := true)
        else d
  }

  function ScanFrom(c: Scan, pn: nat, v: Verdict): Scan
    decreases v.largestAcked - pn
  {
    if pn >= v.largestAcked then c else ScanFrom(ScanOne(c, pn, v), pn + 1, v)
  }

  /** A cut, if any loss was sent after the last one or the last path move. */
  function Cut(cc: Congestion, c: Scan, t: real): Congestion {
    if Lt(cc.recoveryStart, c.lostSentAt) then
      var less: Window := RMax(cc.window * (15.0 / 16.0), MIN_WINDOW);
      cc.(recoveryStart := Fin(t), undo := Some(Undo(cc.window, cc.threshold)), suspects := [],
          threshold := Fin(less), window := if c.persistent then MIN_WINDOW else less)
    else cc
  }

  /** Keep the episode's lost packets as suspects, unless there are too many to be late. */
  function Suspect(cc: Congestion, lost: seq<nat>): Congestion {
    if cc.undo.None? then cc
    else if |cc.suspects| + |lost| > MAX_SUSPECTS then cc.(undo := None, suspects := [])
    else cc.(suspects := cc.suspects + lost)
  }

  function LossVerdict(s: Stream, t: real): Verdict {
    Verdict(s.tx.largestAcked, t, RMax(9.0 / 8.0 * RMax(s.rtt.latest, s.rtt.srtt), 1.0),
            PERSISTENT_PTOS * Pto(s.rtt), s.cc.recoveryStart)
  }

  function LossScan(s: Stream, t: real): Scan {
    var tx := AdvanceOldest(s.tx);
    ScanFrom(Scan(tx, PosInf, [], NegInf, PosInf, false), tx.oldestPn, LossVerdict(s, t))
  }

  function DetectLoss(s: Stream, t: real): Stream {
    var c := LossScan(s, t);
    s.(tx := AdvanceOldest(c.tx),
       cc := Suspect(Cut(s.cc, c, t), c.lost),
       rtt := s.rtt.(lossTime := c.lossTime))
  }

  function SendProbe(s: Stream, t: real): Stream {
    var idle := s.(life := s.life.(probeAt := PosInf));
    if s.life.gone || !s.life.open then idle
    else if |s.tx.probes| >= MAX_PROBES then idle.(tx := s.tx.(probes := []))
    else idle.(tx := s.tx.(nextPn := s.tx.nextPn + 1, probes := s.tx.probes + [s.tx.nextPn]),
               life := s.life.(probeAt := Fin(t + Pto(s.rtt)), lastSent := t),
               wire := s.wire + [Probe(s.tx.nextPn)])
  }

  function StartProbe(s: Stream, t: real): Stream { SendProbe(s.(tx := s.tx.(probes := [])), t) }

  /** The numbers an ack names, walked: in-flight packets and their chunks are dropped. */
  function Acknowledge(s: Stream, ranges: seq<Range>): Walk
    requires ranges != []
  {
    AckAll(Walk(s.tx, s.cc, s.rtt.ptoCount, None), ranges, s.tx.nextPn - 1, Min(ranges[0].hi, s.tx.nextPn - 1))
  }

  function AfterWalk(s: Stream, ranges: seq<Range>): Stream
    requires ranges != []
  {
    var w := Acknowledge(s, ranges);
    var walked := s.(tx := w.tx, cc := w.cc, rtt := s.rtt.(ptoCount := w.ptoCount));
    var probed := ProbeAcked(walked, ranges);
    probed.(cc := Exonerate(probed.cc, ranges),
            tx := AdvanceOldest(probed.tx.(largestAcked :=
              Max(probed.tx.largestAcked, Min(ranges[0].hi, s.tx.nextPn - 1)))))
  }

  /** The round trip of the newest packet acked, if the ack named it first. */
  function Timed(s: Stream, newest: Option<Sent>, delay: nat, t: real): Stream {
    if newest.None? then s else s.(rtt := Sample(s.rtt, t - newest.value.time, delay as real))
  }

  /** With an ack in hand, probes start, if the start or a drop back left that to do. */
  function Reprobe(s: Stream, t: real): Stream {
    if s.tx.reprobe && s.rtt.ptoCount == 0 then StartProbe(s.(tx := s.tx.(reprobe := false)), t) else s
  }

  function AckBody(s: Stream, delay: nat, ranges: seq<Range>, t: real): Stream
    requires ranges != []
  {
    Reprobe(DetectLoss(Timed(AfterWalk(s, ranges), Acknowledge(s, ranges).newest, delay, t), t), t)
  }

  ghost function OnAck(s: Stream, credit: nat, delay: nat, ranges: seq<Range>, t: real): Stream
  {
    var heard := s.(tx := s.tx.(peerCredit := Max(s.tx.peerCredit, credit)));
    var acked := if ranges == [] then heard else AckBody(heard, delay, ranges, t);
    if acked.life.closing && Buffered(acked.tx) == 0 then EndStream(acked, t) else Flush(acked, 0, t)
  }

  // ── life ───────────────────────────────────────────────────────────────────────────

  function EndStream(s: Stream, t: real): Stream {
    if s.life.gone then s
    else if !s.life.open then Fail(s)
    else Fail(s.(life := s.life.(lastSent := t), wire := s.wire + Copies(Close, 3)))
  }

  predicate PeerGone(s: Stream, t: real) {
    |s.tx.inFlight| > 0 && s.rtt.ptoCount >= MAX_PTOS && t - s.life.lastHeard > DEAD_MS
  }

  /** One more timeout; from the second in a row on, back to the base packet size. */
  function TimedOut(s: Stream): Stream {
    var shrink := s.rtt.ptoCount >= 1 && s.tx.packetBytes > BASE_PACKET;
    s.(tx := if shrink then s.tx.(packetBytes := BASE_PACKET, reprobe := true) else s.tx,
       rtt := s.rtt.(ptoCount := s.rtt.ptoCount + 1))
  }

  ghost function OnRecovery(s: Stream, t: real): Stream
  {
    var woken := s.(life := s.life.(recoveryAt := PosInf));
    if |s.tx.inFlight| == 0 then woken
    else if Lt(Fin(t), RecoveryDue(s.rtt)) then Arm(woken)
    else if s.rtt.lossTime != PosInf then Flush(DetectLoss(woken, t), 0, t)
    else if PeerGone(s, t) then EndStream(woken, t)
    else Flush(TimedOut(woken), 2, t)
  }

  function Tick(s: Stream, t: real): Stream {
    if t - s.life.lastHeard > SILENT_MS then Fail(s)
    else if PeerGone(s, t) then EndStream(s, t)
    else
      var kept := if t - s.life.lastSent >= KEEPALIVE_MS then SendAck(s, t) else s;
      kept.(life := kept.life.(liveAt := Fin(t + KEEPALIVE_MS)))
  }

  ghost function OnWake(s: Stream, t: real): Stream
  {
    if s.life.gone then s
    else if Le(s.life.lingerAt, Fin(t)) then EndStream(s, t)
    else
      var ticked := if Le(s.life.liveAt, Fin(t)) then Tick(s, t) else s;
      var recovered := if !ticked.life.gone && Le(ticked.life.recoveryAt, Fin(t))
                       then OnRecovery(ticked, t) else ticked;
      if !recovered.life.gone && Le(recovered.life.probeAt, Fin(t)) then SendProbe(recovered, t) else recovered
  }

  function Opened(s: Stream, t: real): Stream {
    s.(life := s.life.(open := true, lastHeard := t, lastSent := t, liveAt := Fin(t + KEEPALIVE_MS)))
  }

  ghost function Start(s: Stream, t: real): Stream
  {
    if s.life.gone || s.life.open then s
    else
      var up := Opened(s, t);
      var flushed := Flush(if up.rx.ranges != [] then SendAck(up, t) else up, 0, t);
      flushed.(tx := flushed.tx.(reprobe := true))
  }

  /** A new path: congestion state as at the start, one round trip known, no larger packets. */
  function Forget(s: Stream, rttMs: real, t: real): Stream {
    s.(cc := s.cc.(window := INITIAL_WINDOW, threshold := PosInf, recoveryStart := Fin(t), undo := None, suspects := []),
       rtt := Sample(s.rtt.(minRtt := PosInf), rttMs, 0.0).(ptoCount := 0),
       tx := s.tx.(packetBytes := BASE_PACKET, reprobe := false))
  }

  ghost function Repath(s: Stream, rttMs: real, t: real): Stream
  {
    if s.life.gone then s else StartProbe(Flush(SendAck(Forget(s, rttMs, t), t), 0, t), t)
  }

  ghost function Receive(s: Stream, p: Packet, t: real): Stream
  {
    if s.life.gone then s
    else
      var heard := s.(life := s.life.(lastHeard := t));
      match p
      case Data(pn, offset, floor, bytes) =>
        if bytes == [] then heard else OnChunk(heard, pn, offset, floor, bytes, t)
      case Ack(credit, delay, ranges) => OnAck(heard, credit, delay, ranges, t)
      case Probe(pn) => Received(heard, pn, t)
      case Close => Fail(heard)
  }

  /** A write is refused once the stream ends, or past what it will hold. */
  ghost predicate Refuses(s: Stream, n: nat) {
    s.life.gone || s.life.closing || Buffered(s.tx) + n > MAX_BUFFERED
  }

  ghost function Send(s: Stream, bytes: seq<byte>, t: real): Stream
  {
    if Refuses(s, |bytes|) || bytes == [] then s
    else Flush(s.(tx := s.tx.(said := s.tx.said + bytes)), 0, t)
  }

  ghost function CloseStream(s: Stream, graceful: bool, t: real): Stream {
    if s.life.gone || s.life.closing then s
    else if graceful && s.life.open && Buffered(s.tx) > 0
    then s.(life := s.life.(closing := true, lingerAt := Fin(t + LINGER_MS)))
    else EndStream(s, t)
  }
}
