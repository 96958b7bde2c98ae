/** What acks and losses do to the congestion window and the round trip kept
    (WASM/transport/src/stream.js:437-527): told by the packets themselves, whatever steps the
    handlers take. */
module StreamWindow {
  import opened Base
  import opened AckRanges
  import opened StreamSpec
  import opened StreamSender
  import opened StreamReceiver
  import opened StreamNetwork
  import opened StreamFlow
  import opened StreamProgress

  // ── growth ───────────────────────────────────────────────────────────────────────────

  /** The packets that may raise the window: sent since the last cut or move of the path. */
  ghost predicate Since(cc: Congestion, sent: Sent) { Lt(cc.recoveryStart, Fin(sent.time)) }

  /** What the packets among `pns` in flight may raise the window by, while it is what limits
      sending. */
  ghost function Earned(tx: Tx, cc: Congestion, pns: seq<int>): nat
    decreases |pns|
  {
    if pns == [] then 0 else EarnedBy(tx, cc, pns[0]) + Earned(tx, cc, pns[1..])
  }

  ghost function EarnedBy(tx: Tx, cc: Congestion, pn: int): nat {
    if pn >= 0 && pn in tx.inFlight && cc.windowLimited && Since(cc, tx.inFlight[pn]) then tx.inFlight[pn].size else 0
  }

  /** From window `w` to `v` on `n` bytes acked: below the threshold by those bytes, from it on by
      eight packets for each window of bytes, and not at all for none. */
  ghost predicate Grown(w: real, v: real, threshold: Ext, packetBytes: nat, n: int) {
    && w <= v
    && (n == 0 ==> v == w)
    && (Le(Fin(w + n as real), threshold) ==> v == w + n as real)
    && (Le(threshold, Fin(w)) ==> Shared(w, v, EightOf(packetBytes, n)))
  }

  function EightOf(packetBytes: nat, n: int): real { 8.0 * packetBytes as real * n as real }

  /** `a` shared out among windows between `w` and `v`. */
  ghost predicate Shared(w: real, v: real, a: real) { (v - w) * w <= a <= (v - w) * v }

  /** One packet: exactly its size, or exactly its share of eight packets. */
  lemma AckOneGrows(w: Walk, pn: int, largest: int)
    requires pn >= 0 && pn in w.tx.inFlight
    ensures var u, sent := AckOne(w, pn, largest).cc, w.tx.inFlight[pn];
            && u == w.cc.(window := u.window)
            && (!w.cc.windowLimited || !Since(w.cc, sent) ==> u.window == w.cc.window)
            && (w.cc.windowLimited && Since(w.cc, sent) ==>
                  if Lt(Fin(w.cc.window), w.cc.threshold) then u.window == w.cc.window + sent.size as real
                  else (u.window - w.cc.window) * w.cc.window == 8.0 * w.tx.packetBytes as real * sent.size as real)
  {
    var sent := w.tx.inFlight[pn];
    Ratio(8.0 * w.tx.packetBytes as real * sent.size as real, w.cc.window);
  }

  lemma Ratio(a: real, w: real)
    requires w > 0.0
    ensures a / w * w == a
  {
  }

  lemma AckOneEarned(w: Walk, pn: int, largest: int)
    ensures var u := AckOne(w, pn, largest);
            && u.cc == w.cc.(window := u.cc.window) && u.tx.packetBytes == w.tx.packetBytes
            && Grown(w.cc.window, u.cc.window, w.cc.threshold, w.tx.packetBytes, EarnedBy(w.tx, w.cc, pn))
  {
    if pn >= 0 && pn in w.tx.inFlight {
      AckOneGrows(w, pn, largest);
      OneGrown(w.cc.window, AckOne(w, pn, largest).cc.window, w.cc.threshold, w.tx.packetBytes,
               EarnedBy(w.tx, w.cc, pn));
    }
  }

  lemma OneGrown(w: real, v: real, threshold: Ext, packetBytes: nat, n: nat)
    requires w >= 2400.0
    requires n == 0 ==> v == w
    requires n > 0 && Lt(Fin(w), threshold) ==> v == w + n as real
    requires n > 0 && !Lt(Fin(w), threshold) ==> (v - w) * w == 8.0 * packetBytes as real * n as real
    ensures Grown(w, v, threshold, packetBytes, n)
  {
    if n > 0 && !Lt(Fin(w), threshold) {
      Upward(v - w, w, 8.0 * packetBytes as real * n as real);
      assert (v - w) * v == (v - w) * w + (v - w) * (v - w);
      assert (v - w) * (v - w) >= 0.0;
    }
  }

  lemma Upward(d: real, w: real, a: real)
    requires w > 0.0 && a >= 0.0 && d * w == a
    ensures d >= 0.0
  {
    assert d < 0.0 ==> d * w < 0.0;
  }

  lemma GrownOn(w: real, v: real, x: real, threshold: Ext, packetBytes: nat, n: nat, m: nat)
    requires w >= 2400.0 && Grown(w, v, threshold, packetBytes, n) && Grown(v, x, threshold, packetBytes, m)
    ensures Grown(w, x, threshold, packetBytes, n + m)
  {
    hide Shared, EightOf;
    if Le(threshold, Fin(w)) {
      SharedOn(w, v, x, EightOf(packetBytes, n), EightOf(packetBytes, m));
      EightSums(packetBytes, n, m);
    }
  }

  lemma SharedOn(w: real, v: real, x: real, a: real, b: real)
    requires w <= v <= x && Shared(w, v, a) && Shared(v, x, b)
    ensures Shared(w, x, a + b)
  {
    Larger(x - v, w, v);
    Larger(v - w, v, x);
    assert (x - w) * w == (x - v) * w + (v - w) * w;
    assert (x - w) * x == (x - v) * x + (v - w) * x;
  }

  lemma Larger(d: real, a: real, b: real)
    requires d >= 0.0 && a <= b
    ensures d * a <= d * b
  {
  }

  lemma EightSums(packetBytes: nat, n: nat, m: nat)
    ensures EightOf(packetBytes, n + m) == EightOf(packetBytes, n) + EightOf(packetBytes, m)
  {
  }

  /** Acking one number changes nothing of what the others would earn. */
  lemma {:induction false} EarnedAfter(w: Walk, pn: int, largest: int, pns: seq<int>)
    requires pn !in pns
    ensures var u := AckOne(w, pn, largest); Earned(u.tx, u.cc, pns) == Earned(w.tx, w.cc, pns)
    decreases |pns|
  {
    if pns != [] { EarnedAfter(w, pn, largest, pns[1..]); }
  }

  lemma {:induction false} AckEachGrows(w: Walk, pns: seq<int>, largest: int)
    requires forall i, j :: 0 <= i < j < |pns| ==> pns[i] != pns[j]
    ensures var u := AckEach(w, pns, largest);
            && u.cc == w.cc.(window := u.cc.window)
            && Grown(w.cc.window, u.cc.window, w.cc.threshold, w.tx.packetBytes, Earned(w.tx, w.cc, pns))
    decreases |pns|
  {
    hide AckOne, Grown;
    if pns == [] {
      NoneGrown(w.cc.window, w.cc.threshold, w.tx.packetBytes);
    } else {
      var u := AckOne(w, pns[0], largest);
      AckOneEarned(w, pns[0], largest);
      EarnedAfter(w, pns[0], largest, pns[1..]);
      AckEachGrows(u, pns[1..], largest);
      GrownOn(w.cc.window, u.cc.window, AckEach(w, pns, largest).cc.window, w.cc.threshold, w.tx.packetBytes,
              EarnedBy(w.tx, w.cc, pns[0]), Earned(w.tx, w.cc, pns[1..]));
    }
  }

  lemma NoneGrown(w: real, threshold: Ext, packetBytes: nat)
    ensures Grown(w, w, threshold, packetBytes, 0)
  {
  }

  // ── which packets an ack names ───────────────────────────────────────────────────────

  /** The packets an ack names that may raise the window. */
  ghost function Earning(tx: Tx, cc: Congestion, ranges: seq<Range>): map<nat, Sent> {
    map pn | pn in tx.inFlight && Names(ranges, pn) && Since(cc, tx.inFlight[pn]) :: tx.inFlight[pn]
  }

  /** The same of the numbers in a list. */
  ghost function Among(tx: Tx, cc: Congestion, pns: seq<int>): map<nat, Sent> {
    map pn | pn in tx.inFlight && pn in pns && Since(cc, tx.inFlight[pn]) :: tx.inFlight[pn]
  }

  /** The bytes earned are those packets' sizes, each counted once. */
  lemma {:induction false} EarnedSums(tx: Tx, cc: Congestion, pns: seq<int>)
    requires cc.windowLimited && forall i, j :: 0 <= i < j < |pns| ==> pns[i] != pns[j]
    ensures Earned(tx, cc, pns) == SumMap(Among(tx, cc, pns), SizeOf())
    decreases |pns|
  {
    hide SumMap;
    if pns == [] {
      assert Among(tx, cc, pns) == map[];
      assert SumMap(map[], SizeOf()) == 0 by { NoSizes(); }
    } else {
      var pn, rest := pns[0], Among(tx, cc, pns[1..]);
      EarnedSums(tx, cc, pns[1..]);
      assert pn !in pns[1..];
      assert forall x :: x in pns <==> x == pn || x in pns[1..];
      if pn >= 0 && pn in tx.inFlight && Since(cc, tx.inFlight[pn]) {
        assert Among(tx, cc, pns) == rest[pn := tx.inFlight[pn]];
        SumMapAdd(rest, SizeOf(), pn, tx.inFlight[pn]);
      } else {
        assert Among(tx, cc, pns) == rest;
      }
    }
  }

  lemma NoSizes()
    ensures SumMap(map[], SizeOf()) == 0
  {
  }

  lemma {:induction false} EarnedNothing(tx: Tx, cc: Congestion, pns: seq<int>)
    requires !cc.windowLimited
    ensures Earned(tx, cc, pns) == 0
    decreases |pns|
  {
    if pns != [] { EarnedNothing(tx, cc, pns[1..]); }
  }

  /** What an ack earns: the sizes of the packets it names that are in flight and sent since the
      last cut, if the window limits sending. */
  ghost function Earnings(tx: Tx, cc: Congestion, ranges: seq<Range>): int {
    if cc.windowLimited then SumMap(Earning(tx, cc, ranges), SizeOf()) else 0
  }

  /** The walk over an ack's ranges raises the window by what the packets it names earn. */
  lemma WalkGrows(s: Stream, ranges: seq<Range>)
    requires SendOk(s) && ranges != [] && Good(ranges)
    ensures var u := Acknowledge(s, ranges).cc;
            && u == s.cc.(window := u.window)
            && Grown(s.cc.window, u.window, s.cc.threshold, s.tx.packetBytes, Earnings(s.tx, s.cc, ranges))
  {
    hide SumMap, Tiled, ChunksOk, Counted, CarriedBut, WireOk, Grown;
    var w := Walk(s.tx, s.cc, s.rtt.ptoCount, None);
    var below, largest := s.tx.nextPn - 1, Min(ranges[0].hi, s.tx.nextPn - 1);
    var pns := Visited(ranges, below, s.tx.oldestPn);
    WalkVisits(w, ranges, below, largest);
    WalkVisitsOnce(ranges, below, s.tx.oldestPn);
    AckEachGrows(w, pns, largest);
    if s.cc.windowLimited {
      EarnedSums(s.tx, s.cc, pns);
      forall pn | pn in s.tx.inFlight ensures pn in pns <==> Names(ranges, pn) {
        if Names(ranges, pn) { NamedVisited(ranges, below, s.tx.oldestPn, pn); }
        if pn in pns { VisitedNamed(ranges, below, s.tx.oldestPn, pn); }
      }
      assert Among(s.tx, s.cc, pns) == Earning(s.tx, s.cc, ranges);
    } else {
      EarnedNothing(s.tx, s.cc, pns);
    }
  }

  lemma {:induction false} VisitedNamed(ranges: seq<Range>, below: int, oldest: int, pn: int)
    requires pn in Visited(ranges, below, oldest)
    ensures Names(ranges, pn)
    decreases |ranges|
  {
    var hi, lo := Min(ranges[0].hi, below), Max(ranges[0].lo, oldest);
    UpToExact(lo, hi);
    if lo <= hi && pn in UpTo(lo, hi) {
      assert ranges[0].lo <= pn <= ranges[0].hi;
    } else {
      VisitedNamed(ranges[1..], if lo > hi then below else lo - 1, oldest, pn);
      NamesConcat([ranges[0]], ranges[1..], pn);
      assert [ranges[0]] + ranges[1..] == ranges;
    }
  }

  // ── which packets are given up on ────────────────────────────────────────────────────

  /** Three packets or more above it are acked, or one is and it left a millisecond ago, and an
      eighth more than a round trip. */
  ghost predicate GivenUp(s: Stream, t: real, pn: int) {
    && pn >= 0 && pn in s.tx.inFlight && pn < s.tx.largestAcked
    && (s.tx.largestAcked >= pn + 3 || Overdue(s.rtt, t - s.tx.inFlight[pn].time))
  }

  ghost function Losses(s: Stream, t: real): set<nat> { set pn | pn in s.tx.inFlight && GivenUp(s, t, pn) }

  ghost predicate Overdue(rtt: Rtt, age: real) {
    age >= 1.0 && 8.0 * age >= 9.0 * rtt.latest && 8.0 * age >= 9.0 * rtt.srtt
  }

  ghost predicate LostIn(tx: Tx, v: Verdict, pn: int) { pn >= 0 && pn in tx.inFlight && IsLost(v, pn, tx.inFlight[pn]) }

  /** A scan of `tx` from `from`, come to `to`: just what is lost is gone. */
  ghost predicate Sifted(tx: Tx, c: Scan, from: nat, to: int, v: Verdict) {
    && (forall x :: x in c.tx.inFlight ==> x in tx.inFlight && c.tx.inFlight[x] == tx.inFlight[x])
    && (forall x :: x in tx.inFlight ==> (x in c.tx.inFlight <==> !(from <= x < to && LostIn(tx, v, x))))
    && (forall x :: x in c.lost <==> from <= x < to && LostIn(tx, v, x))
    && (forall x :: x in c.lost && x in tx.inFlight ==> Le(Fin(tx.inFlight[x].time), c.lostSentAt))
    && (forall i, j :: 0 <= i < j < |c.lost| ==> c.lost[i] != c.lost[j])
  }

  lemma ScanOneShape(c: Scan, pn: nat, v: Verdict)
    ensures var d := ScanOne(c, pn, v);
            if LostIn(c.tx, v, pn) then
              d.tx.inFlight == c.tx.inFlight - {pn} && d.lost == c.lost + [pn]
              && d.lostSentAt == ExtMax(c.lostSentAt, Fin(c.tx.inFlight[pn].time))
            else d.tx == c.tx && d.lost == c.lost && d.lostSentAt == c.lostSentAt
  {
    hide IsLost, ExtMax, ExtMin;
  }

  lemma ScanOneSifts(tx: Tx, c: Scan, from: nat, pn: nat, v: Verdict)
    requires from <= pn && Sifted(tx, c, from, pn, v)
    ensures Sifted(tx, ScanOne(c, pn, v), from, pn + 1, v)
  {
    hide ScanOne, IsLost;
    ScanOneShape(c, pn, v);
    var d := ScanOne(c, pn, v);
    if LostIn(tx, v, pn) {
      assert LostIn(c.tx, v, pn);
      assert forall x :: x in d.lost <==> x in c.lost || x == pn;
      LatestOn(c.lostSentAt, tx.inFlight[pn].time);
    } else {
      assert !LostIn(c.tx, v, pn);
    }
  }

  lemma LatestOn(at: Ext, time: real)
    ensures Le(Fin(time), ExtMax(at, Fin(time)))
    ensures forall x: Ext :: Le(x, at) ==> Le(x, ExtMax(at, Fin(time)))
  {
  }

  lemma {:induction false} ScanFromSifts(tx: Tx, c: Scan, from: nat, pn: nat, v: Verdict)
    requires from <= pn && Sifted(tx, c, from, pn, v)
    ensures Sifted(tx, ScanFrom(c, pn, v), from, Max(pn, v.largestAcked), v)
    decreases v.largestAcked - pn
  {
    hide Sifted, ScanOne;
    if pn < v.largestAcked {
      ScanOneSifts(tx, c, from, pn, v);
      ScanFromSifts(tx, ScanOne(c, pn, v), from, pn + 1, v);
    }
  }

  lemma LostIsOverdue(s: Stream, t: real, pn: int)
    ensures GivenUp(s, t, pn) <==> pn < s.tx.largestAcked && LostIn(s.tx, LossVerdict(s, t), pn)
  {
  }

  /** What a loss scan takes out of the flight, and holds as lost, is just what is given up on,
      and it knows the latest of those sent. */
  lemma LossesExact(s: Stream, t: real)
    requires SendOk(s)
    ensures var d, c := DetectLoss(s, t), LossScan(s, t);
            && (forall pn :: pn in d.tx.inFlight <==> pn in s.tx.inFlight && !GivenUp(s, t, pn))
            && (forall pn :: pn in d.tx.inFlight ==> d.tx.inFlight[pn] == s.tx.inFlight[pn])
            && (forall pn :: pn in c.lost <==> GivenUp(s, t, pn)) && |c.lost| == |Losses(s, t)|
            && (forall pn :: GivenUp(s, t, pn) ==> Le(Fin(s.tx.inFlight[pn].time), c.lostSentAt))
  {
    hide Tiled, ChunksOk, Counted, CarriedBut, WireOk, SumMap, GivenUp, LostIn;
    var tx, v := AdvanceOldest(s.tx), LossVerdict(s, t);
    AdvanceFrame(s.tx);
    AdvanceTouches(s.tx);
    var start := Scan(tx, PosInf, [], NegInf, PosInf, false);
    ScanFromSifts(tx, start, tx.oldestPn, tx.oldestPn, v);
    AdvanceFrame(LossScan(s, t).tx);
    forall pn ensures GivenUp(s, t, pn) <==> pn < s.tx.largestAcked && LostIn(tx, v, pn) {
      LostIsOverdue(s, t, pn);
      SameFlight(s.tx, tx, v, pn);
    }
    forall pn | LostIn(tx, v, pn) ensures pn in s.tx.inFlight { SameFlight(s.tx, tx, v, pn); }
    DistinctCount(LossScan(s, t).lost, Losses(s, t));
  }

  lemma SameFlight(a: Tx, b: Tx, v: Verdict, pn: int)
    requires b.inFlight == a.inFlight
    ensures LostIn(a, v, pn) <==> LostIn(b, v, pn)
    ensures LostIn(a, v, pn) ==> pn >= 0 && pn in a.inFlight
  {
  }

  lemma {:induction false} DistinctCount(l: seq<nat>, of: set<nat>)
    requires (forall x :: x in l <==> x in of) && forall i, j :: 0 <= i < j < |l| ==> l[i] != l[j]
    ensures |l| == |of|
    decreases |l|
  {
    if l != [] {
      assert l[0] in l && l[0] !in l[1..];
      assert forall x :: x in l <==> x == l[0] || x in l[1..];
      DistinctCount(l[1..], of - {l[0]});
    } else {
      assert of == {};
    }
  }

  // ── a run of losses ──────────────────────────────────────────────────────────────────

  ghost predicate LostSince(tx: Tx, v: Verdict, pn: int) {
    LostIn(tx, v, pn) && Lt(v.recoveryStart, Fin(tx.inFlight[pn].time))
  }

  /** None of these numbers was acked, or left the flight before. */
  ghost predicate Unbroken(tx: Tx, a: int, b: int) { forall x :: a <= x < b ==> x in tx.inFlight }

  /** The first of a run of losses sent since the last cut. */
  ghost predicate First(tx: Tx, v: Verdict, from: int, f: int) {
    from <= f && LostSince(tx, v, f) && forall g :: from <= g < f && LostSince(tx, v, g) ==> !Unbroken(tx, g, f)
  }

  /** A run from its first to a loss sent more than three timeouts after it. */
  ghost predicate Stretch(tx: Tx, v: Verdict, from: int, f: int, b: int) {
    && First(tx, v, from, f) && f < b && LostSince(tx, v, b) && Unbroken(tx, f, b)
    && tx.inFlight[b].time - tx.inFlight[f].time > v.persistence
  }

  ghost predicate Running(tx: Tx, v: Verdict, from: int, to: int, f: int, at: Ext) {
    f < to && First(tx, v, from, f) && Unbroken(tx, f, to) && at == Fin(tx.inFlight[f].time)
  }

  /** Where a scan stands among runs: in one, from its first, or in none. */
  ghost predicate RunsSeen(tx: Tx, c: Scan, from: int, to: int, v: Verdict) {
    && (forall x :: x in c.tx.inFlight ==> x in tx.inFlight && c.tx.inFlight[x] == tx.inFlight[x])
    && (forall x :: x >= to && x in tx.inFlight ==> x in c.tx.inFlight)
    && (if c.runFrom == PosInf then forall g :: from <= g < to && LostSince(tx, v, g) ==> !Unbroken(tx, g, to)
        else exists f :: Running(tx, v, from, to, f, c.runFrom))
    && (c.persistent <==> exists f, b :: b < to && Stretch(tx, v, from, f, b))
  }

  /** What a scan does at one number, as to runs. */
  lemma ScanOneRuns(c: Scan, pn: nat, v: Verdict)
    ensures var d := ScanOne(c, pn, v);
            && d.runFrom == (if pn !in c.tx.inFlight then PosInf
                             else if LostSince(c.tx, v, pn) && c.runFrom == PosInf then Fin(c.tx.inFlight[pn].time)
                             else c.runFrom)
            && (d.persistent <==> c.persistent || (LostSince(c.tx, v, pn) && c.runFrom.Fin?
                                                   && c.tx.inFlight[pn].time - c.runFrom.r > v.persistence))
            && (forall x :: x in d.tx.inFlight ==> x in c.tx.inFlight && d.tx.inFlight[x] == c.tx.inFlight[x])
            && (forall x :: x != pn && x in c.tx.inFlight ==> x in d.tx.inFlight)
  {
    hide IsLost, ExtMin, ExtMax, AddLost;
  }

  lemma OneFirst(tx: Tx, v: Verdict, from: int, f: int, g: int, b: int)
    requires First(tx, v, from, f) && First(tx, v, from, g) && f <= b && g <= b && Unbroken(tx, f, b) && Unbroken(tx, g, b)
    ensures f == g
  {
    assert f < g ==> Unbroken(tx, f, g);
    assert g < f ==> Unbroken(tx, g, f);
  }

  lemma LostSinceSame(tx: Tx, c: Scan, from: int, pn: nat, v: Verdict)
    requires RunsSeen(tx, c, from, pn, v)
    ensures LostSince(c.tx, v, pn) <==> LostSince(tx, v, pn)
    ensures pn in c.tx.inFlight <==> pn in tx.inFlight
    ensures pn in tx.inFlight ==> c.tx.inFlight[pn] == tx.inFlight[pn]
    ensures LostSince(tx, v, pn) ==> pn in tx.inFlight
  {
  }

  lemma ScanOneSees(tx: Tx, c: Scan, from: nat, pn: nat, v: Verdict)
    requires from <= pn && RunsSeen(tx, c, from, pn, v)
    ensures RunsSeen(tx, ScanOne(c, pn, v), from, pn + 1, v)
  {
    hide ScanOne, LostSince, First;
    var d := ScanOne(c, pn, v);
    ScanOneRuns(c, pn, v);
    LostSinceSame(tx, c, from, pn, v);
    RunGoesOn(tx, c, d, from, pn, pn + 1, v);
    StretchSeen(tx, c, d, from, pn, v);
  }

  lemma RunGoesOn(tx: Tx, c: Scan, d: Scan, from: nat, pn: nat, to: nat, v: Verdict)
    requires from <= pn && to == pn + 1 && RunsSeen(tx, c, from, pn, v)
    requires d.runFrom == if pn !in tx.inFlight then PosInf
                          else if LostSince(tx, v, pn) && c.runFrom == PosInf then Fin(tx.inFlight[pn].time)
                          else c.runFrom
    ensures if d.runFrom == PosInf then forall g :: from <= g < to && LostSince(tx, v, g) ==> !Unbroken(tx, g, to)
            else exists f :: Running(tx, v, from, to, f, d.runFrom)
  {
    hide LostSince;
    if pn !in tx.inFlight {
      forall g | from <= g < to ensures !Unbroken(tx, g, to) {}
    } else if c.runFrom == PosInf {
      forall g | from <= g < pn && Unbroken(tx, g, to) ensures Unbroken(tx, g, pn) {}
      if LostSince(tx, v, pn) { assert Running(tx, v, from, to, pn, d.runFrom); }
    } else {
      var f :| Running(tx, v, from, pn, f, c.runFrom);
      assert Running(tx, v, from, to, f, d.runFrom);
    }
  }

  lemma StretchSeen(tx: Tx, c: Scan, d: Scan, from: nat, pn: nat, v: Verdict)
    requires from <= pn && RunsSeen(tx, c, from, pn, v)
    requires d.persistent <==> c.persistent || (LostSince(tx, v, pn) && c.runFrom.Fin?
                                               && tx.inFlight[pn].time - c.runFrom.r > v.persistence)
    ensures d.persistent <==> exists f, b :: b < pn + 1 && Stretch(tx, v, from, f, b)
  {
    if c.runFrom.Fin? && LostSince(tx, v, pn) {
      var f :| Running(tx, v, from, pn, f, c.runFrom);
      forall g | Stretch(tx, v, from, g, pn) ensures g == f { OneFirst(tx, v, from, f, g, pn); }
      assert Stretch(tx, v, from, f, pn) <==> tx.inFlight[pn].time - c.runFrom.r > v.persistence;
      assert pn < pn + 1;
    }
    forall f | Stretch(tx, v, from, f, pn) ensures c.runFrom.Fin? { assert from <= f < pn && LostSince(tx, v, f); }
  }

  lemma {:induction false} ScanFromSees(tx: Tx, c: Scan, from: nat, pn: nat, v: Verdict)
    requires from <= pn && RunsSeen(tx, c, from, pn, v)
    ensures RunsSeen(tx, ScanFrom(c, pn, v), from, Max(pn, v.largestAcked), v)
    decreases v.largestAcked - pn
  {
    hide RunsSeen, ScanOne;
    if pn < v.largestAcked {
      ScanOneSees(tx, c, from, pn, v);
      ScanFromSees(tx, ScanOne(c, pn, v), from, pn + 1, v);
    }
  }

  // ── what a loss does to the window ───────────────────────────────────────────────────

  /** A sixteenth less, or the least there is. */
  ghost predicate Lessened(w: real, v: real) { v >= MIN_WINDOW && 16.0 * v >= 15.0 * w && (v == MIN_WINDOW || 16.0 * v == 15.0 * w) }

  /** What an unanswered packet waits: a round trip, four times its variation or a millisecond, and
      the longest a peer holds an ack back. */
  function Timeout(rtt: Rtt): real { rtt.srtt + (if 4.0 * rtt.rttvar < 1.0 then 1.0 else 4.0 * rtt.rttvar) + 25.0 }

  ghost predicate FreshLoss(s: Stream, t: real, pn: int) { GivenUp(s, t, pn) && Since(s.cc, s.tx.inFlight[pn]) }

  /** Every number from `a` to before `b` is in flight. */
  ghost predicate AllOut(s: Stream, a: int, b: int) { forall x :: a <= x < b ==> x in s.tx.inFlight }

  /** Losses sent since the last cut, with nothing acked between, the first of such a run and one
      sent more than three timeouts after it. */
  ghost predicate LongRun(s: Stream, t: real, f: int, b: int) {
    && f < b && FreshLoss(s, t, f) && FreshLoss(s, t, b) && AllOut(s, f, b)
    && (forall g :: 0 <= g < f && FreshLoss(s, t, g) ==> !AllOut(s, g, f))
    && s.tx.inFlight[b].time - s.tx.inFlight[f].time > 3.0 * Timeout(s.rtt)
  }

  ghost predicate Persistent(s: Stream, t: real) { exists f, b :: LongRun(s, t, f, b) }

  lemma TimeoutIsPto(rtt: Rtt)
    ensures Pto(rtt) == Timeout(rtt)
  {
  }

  lemma StretchIsRun(s: Stream, tx: Tx, t: real, f: int, b: int)
    requires tx.inFlight == s.tx.inFlight && tx.oldestPn >= 0 && forall pn :: pn in tx.inFlight ==> pn >= tx.oldestPn
    ensures b < s.tx.largestAcked && Stretch(tx, LossVerdict(s, t), tx.oldestPn, f, b) <==> LongRun(s, t, f, b)
  {
    TimeoutIsPto(s.rtt);
    hide Pto, Timeout;
    forall g | g < s.tx.largestAcked ensures FreshLoss(s, t, g) <==> LostSince(tx, LossVerdict(s, t), g) {
      LostIsOverdue(s, t, g);
      SameFlight(s.tx, tx, LossVerdict(s, t), g);
    }
    hide FreshLoss, LostSince;
    forall g ensures AllOut(s, g, f) <==> Unbroken(tx, g, f) {}
    forall g | FreshLoss(s, t, g) ensures 0 <= tx.oldestPn <= g < s.tx.largestAcked { FreshOut(s, t, g); }
    forall g | LostSince(tx, LossVerdict(s, t), g) ensures tx.oldestPn <= g { SinceOut(tx, LossVerdict(s, t), g); }
  }

  lemma FreshOut(s: Stream, t: real, pn: int)
    requires FreshLoss(s, t, pn)
    ensures pn >= 0 && pn in s.tx.inFlight && pn < s.tx.largestAcked
  {
  }

  lemma SinceOut(tx: Tx, v: Verdict, pn: int)
    requires LostSince(tx, v, pn)
    ensures pn >= 0 && pn in tx.inFlight
  {
  }

  lemma PersistentExact(s: Stream, t: real)
    requires SendOk(s)
    ensures LossScan(s, t).persistent <==> Persistent(s, t)
  {
    hide Tiled, ChunksOk, Counted, CarriedBut, WireOk, SumMap, Stretch, LongRun;
    var tx, v := AdvanceOldest(s.tx), LossVerdict(s, t);
    AdvanceFrame(s.tx);
    AdvanceTouches(s.tx);
    var start := Scan(tx, PosInf, [], NegInf, PosInf, false);
    ScanFromSees(tx, start, tx.oldestPn, tx.oldestPn, v) by { StartSees(tx, v); }
    forall f, b ensures b < s.tx.largestAcked && Stretch(tx, v, tx.oldestPn, f, b) <==> LongRun(s, t, f, b) {
      StretchIsRun(s, tx, t, f, b);
    }
    forall f, b | Stretch(tx, v, tx.oldestPn, f, b) ensures tx.oldestPn <= f < b { StretchAhead(tx, v, tx.oldestPn, f, b); }
  }

  lemma StretchAhead(tx: Tx, v: Verdict, from: int, f: int, b: int)
    requires Stretch(tx, v, from, f, b)
    ensures from <= f < b
  {
  }

  lemma StartSees(tx: Tx, v: Verdict)
    ensures RunsSeen(tx, Scan(tx, PosInf, [], NegInf, PosInf, false), tx.oldestPn, tx.oldestPn, v)
  {
    forall f, b | b < tx.oldestPn ensures !Stretch(tx, v, tx.oldestPn, f, b) {}
  }

  /** A cut of window `w`: the threshold a sixteenth less, and the window with it, or at the least
      there is after persistent loss. It can be undone unless more than 32 packets went at once. */
  ghost predicate CutFrom(s: Stream, cc: Congestion, t: real) {
    && cc.recoveryStart == Fin(t)
    && cc.threshold.Fin? && Lessened(s.cc.window, cc.threshold.r)
    && cc.window == (if Persistent(s, t) then MIN_WINDOW else cc.threshold.r)
    && (if |Losses(s, t)| <= 32 then
          cc.undo == Some(Undo(s.cc.window, s.cc.threshold)) && forall pn :: pn in cc.suspects <==> pn in Losses(s, t)
        else cc.undo.None? && cc.suspects == [])
  }

  /** No cut: what is lost joins those that may prove late, unless they come to more than 32. */
  ghost predicate NoCut(s: Stream, cc: Congestion, t: real) {
    && cc.window == s.cc.window && cc.threshold == s.cc.threshold && cc.recoveryStart == s.cc.recoveryStart
    && (if s.cc.undo.Some? && |s.cc.suspects| + |Losses(s, t)| <= 32 then
          cc.undo == s.cc.undo && forall pn :: pn in cc.suspects <==> pn in s.cc.suspects || pn in Losses(s, t)
        else cc.undo.None?)
  }

  /** Losses cut the window just when one is of a packet sent since the last cut, and once. */
  lemma LossCuts(s: Stream, t: real)
    requires SendOk(s)
    ensures if exists pn :: FreshLoss(s, t, pn) then CutFrom(s, DetectLoss(s, t).cc, t) else NoCut(s, DetectLoss(s, t).cc, t)
  {
    hide Tiled, ChunksOk, Counted, CarriedBut, WireOk, SumMap, GivenUp, LossScan, Persistent;
    LossesExact(s, t);
    PersistentExact(s, t);
    var c := LossScan(s, t);
    LossScanOk(s, t);
    if Lt(s.cc.recoveryStart, c.lostSentAt) {
      var i :| 0 <= i < |c.lost| && c.lostSentAt == Fin(s.tx.inFlight[c.lost[i]].time);
      assert c.lost[i] in c.lost;
      assert FreshLoss(s, t, c.lost[i]);
    }
    if exists pn :: FreshLoss(s, t, pn) {
      var pn :| FreshLoss(s, t, pn);
      LaterThan(s.cc.recoveryStart, Fin(s.tx.inFlight[pn].time), c.lostSentAt);
    }
    LossMembers(s, t);
  }

  lemma LossMembers(s: Stream, t: real)
    ensures forall pn :: pn in Losses(s, t) <==> pn >= 0 && GivenUp(s, t, pn)
  {
  }

  lemma LaterThan(a: Ext, b: Ext, c: Ext)
    requires Lt(a, b) && Le(b, c)
    ensures Lt(a, c)
  {
  }

  // ── an ack's whole effect ────────────────────────────────────────────────────────────

  lemma {:induction false} AckEachFlight(w: Walk, pns: seq<int>, largest: int)
    ensures var u := AckEach(w, pns, largest);
            && (forall pn :: pn in u.tx.inFlight <==> pn in w.tx.inFlight && pn !in pns)
            && (forall pn :: pn in u.tx.inFlight ==> u.tx.inFlight[pn] == w.tx.inFlight[pn])
            && u.newest == (if largest in pns && largest >= 0 && largest in w.tx.inFlight
                            then Some(w.tx.inFlight[largest]) else w.newest)
            && u.ptoCount == (if exists pn :: pn in pns && pn >= 0 && pn in w.tx.inFlight then 0 else w.ptoCount)
    decreases |pns|
  {
    if pns != [] {
      AckEachFlight(AckOne(w, pns[0], largest), pns[1..], largest);
      assert forall pn :: pn in pns <==> pn == pns[0] || pn in pns[1..];
    }
  }

  /** The newest number an ack names that was ever sent. */
  function Top(s: Stream, ranges: seq<Range>): int
    requires ranges != []
  {
    Min(ranges[0].hi, s.tx.nextPn - 1)
  }

  ghost predicate NamesFlight(s: Stream, ranges: seq<Range>) { exists pn :: pn in s.tx.inFlight && Names(ranges, pn) }

  /** An ack takes out of the flight just what it names; its newest packet, if that is among
      them, times the round trip; and any of them ends the timeouts in a row. */
  lemma WalkTakes(s: Stream, ranges: seq<Range>)
    requires SendOk(s) && ranges != [] && Good(ranges)
    ensures var u, top := Acknowledge(s, ranges), Top(s, ranges);
            && (forall pn :: pn in u.tx.inFlight <==> pn in s.tx.inFlight && !Names(ranges, pn))
            && (forall pn :: pn in u.tx.inFlight ==> u.tx.inFlight[pn] == s.tx.inFlight[pn])
            && u.newest == (if top >= 0 && top in s.tx.inFlight && Names(ranges, top)
                            then Some(s.tx.inFlight[top]) else None)
            && u.ptoCount == (if NamesFlight(s, ranges) then 0 else s.rtt.ptoCount)
  {
    hide SumMap, Tiled, ChunksOk, Counted, CarriedBut, WireOk;
    var w := Walk(s.tx, s.cc, s.rtt.ptoCount, None);
    var below := s.tx.nextPn - 1;
    var pns := Visited(ranges, below, s.tx.oldestPn);
    WalkVisits(w, ranges, below, Top(s, ranges));
    AckEachFlight(w, pns, Top(s, ranges));
    forall pn | pn in s.tx.inFlight ensures pn in pns <==> Names(ranges, pn) {
      if Names(ranges, pn) { NamedVisited(ranges, below, s.tx.oldestPn, pn); }
      if pn in pns { VisitedNamed(ranges, below, s.tx.oldestPn, pn); }
    }
  }

  lemma {:induction false} FlushLoopSame(s: Stream, probes: nat, t: real)
    requires NumbersOk(s.tx)
    ensures var r := FlushLoop(s, probes, t);
            && r.cc == s.cc.(windowLimited := r.cc.windowLimited) && r.rtt == s.rtt.(lastSentData := r.rtt.lastSentData)
            && (forall pn :: pn < s.tx.nextPn ==> (pn in r.tx.inFlight <==> pn in s.tx.inFlight))
            && (forall pn :: pn in s.tx.inFlight ==> r.tx.inFlight[pn] == s.tx.inFlight[pn])
    decreases probes, Max(0, s.cc.window.Floor + 1 - s.tx.bytesInFlight)
  {
    hide SendNext, NextChunk;
    if !(probes == 0 && WindowFull(s)) {
      SendNextRx(s, probes > 0, t);
      SendNextSame(s, probes > 0, t);
      if NextChunk(s.tx, probes > 0).offset >= 0 {
        FlushLoopSame(SendNext(s, probes > 0, t), if probes > 0 then probes - 1 else 0, t);
      }
    }
  }

  lemma SendNextSame(s: Stream, probe: bool, t: real)
    requires NumbersOk(s.tx)
    ensures var r := SendNext(s, probe, t);
            && NumbersOk(r.tx) && s.tx.nextPn <= r.tx.nextPn
            && r.cc == s.cc.(windowLimited := r.cc.windowLimited) && r.rtt == s.rtt.(lastSentData := r.rtt.lastSentData)
            && (forall pn :: pn < s.tx.nextPn ==> (pn in r.tx.inFlight <==> pn in s.tx.inFlight))
            && (forall pn :: pn in s.tx.inFlight ==> r.tx.inFlight[pn] == s.tx.inFlight[pn])
  {
    hide NextChunk;
    NextFlight(s.tx, probe);
  }

  /** What an ack leaves of a stream's window and timing, before what it frees is sent. */
  ghost function Weighed(s: Stream, credit: nat, delay: nat, ranges: seq<Range>, t: real): Stream
    requires ranges != []
  {
    DetectLoss(Timed(AfterWalk(s.(tx := s.tx.(peerCredit := Max(s.tx.peerCredit, credit))), ranges),
                     Acknowledge(s.(tx := s.tx.(peerCredit := Max(s.tx.peerCredit, credit))), ranges).newest, delay, t), t)
  }

  lemma ReprobeFlight(s: Stream, t: real)
    ensures var u := Reprobe(s, t); u.cc == s.cc && u.rtt == s.rtt && u.tx.inFlight == s.tx.inFlight
  {
  }

  lemma OnAckWeighed(s: Stream, credit: nat, delay: nat, ranges: seq<Range>, t: real)
    requires SendOk(s) && ranges != []
    ensures var u, j := OnAck(s, credit, delay, ranges, t), Weighed(s, credit, delay, ranges, t);
            && u.cc == j.cc.(windowLimited := u.cc.windowLimited) && u.rtt == j.rtt.(lastSentData := u.rtt.lastSentData)
            && (forall pn :: pn in s.tx.inFlight ==> (pn in u.tx.inFlight <==> pn in j.tx.inFlight))
  {
    hide Tiled, ChunksOk, Counted, CarriedBut, WireOk, Evolves, FlushLoop, Buffered, DetectLoss, AfterWalk, Reprobe, Acknowledge;
    var h := News(credit, ranges);
    var heard := s.(tx := s.tx.(peerCredit := Max(s.tx.peerCredit, credit)));
    TouchSteps(s, heard, h);
    AckBodyKeeps(heard, delay, h, t);
    var acked := AckBody(heard, delay, ranges, t);
    assert acked == Reprobe(Weighed(s, credit, delay, ranges, t), t);
    hide Weighed, AckBody, SendOk;
    ReprobeFlight(Weighed(s, credit, delay, ranges, t), t);
    FlightNumbered(heard, acked, h);
    FlushLoopSame(acked, 0, t);
  }

  lemma FlightNumbered(a: Stream, b: Stream, h: News)
    requires SendOk(a) && Steps(a, b, h)
    ensures NumbersOk(b.tx) && forall pn :: pn in a.tx.inFlight ==> pn < b.tx.nextPn
  {
    NumbersUp(a.tx, b.tx, h);
  }

  lemma NumbersUp(a: Tx, b: Tx, h: News)
    requires NumbersOk(a) && Evolves(a, b, h)
    ensures a.nextPn <= b.nextPn && forall pn :: pn in a.inFlight ==> pn < b.nextPn
  {
  }

  /** A packet sent since the last cut that an ack leaves unnamed and gives up on. */
  ghost predicate LateLoss(s: Stream, u: Stream, ranges: seq<Range>, pn: nat) {
    pn in s.tx.inFlight && pn !in u.tx.inFlight && !Names(ranges, pn) && Since(s.cc, s.tx.inFlight[pn])
  }

  /** The cut, if there was one, stands. */
  ghost predicate NotUndone(cc: Congestion, ranges: seq<Range>) {
    cc.undo.None? || exists pn :: pn in cc.suspects && !Names(ranges, pn)
  }

  lemma ExonerateStands(cc: Congestion, ranges: seq<Range>)
    requires NotUndone(cc, ranges)
    ensures var e := Exonerate(cc, ranges);
            e.window == cc.window && e.threshold == cc.threshold && e.recoveryStart == cc.recoveryStart && e.undo == cc.undo
  {
    UnnamedExact(cc.suspects, ranges);
  }

  lemma AfterWalkShape(s: Stream, ranges: seq<Range>)
    requires SendOk(s) && ranges != []
    ensures var u, w := AfterWalk(s, ranges), Acknowledge(s, ranges);
            && u.cc == Exonerate(w.cc, ranges) && u.tx.inFlight == w.tx.inFlight
            && u.rtt == s.rtt.(ptoCount := w.ptoCount)
  {
    hide AckAll, Exonerate, NamesAny;
    var w := Acknowledge(s, ranges);
    var m := ProbeAcked(s.(tx := w.tx, cc := w.cc, rtt := s.rtt.(ptoCount := w.ptoCount)), ranges);
    AdvanceFrame(m.tx.(largestAcked := Max(m.tx.largestAcked, Top(s, ranges))));
  }

  /** An ack that undoes no cut: without a loss of a packet sent since the last one, the window
      grows by what the packets named earn; with one, it is cut from there. */
  lemma AckMovesWindow(s: Stream, credit: nat, delay: nat, ranges: seq<Range>, t: real)
    requires SendOk(s) && ranges != [] && Good(ranges) && NotUndone(s.cc, ranges)
    ensures var u := OnAck(s, credit, delay, ranges, t);
            var n := Earnings(s.tx, s.cc, ranges);
            if exists pn :: LateLoss(s, u, ranges, pn) then
              && u.cc.recoveryStart == Fin(t) && u.cc.threshold.Fin?
              && (exists w1: real :: Grown(s.cc.window, w1, s.cc.threshold, s.tx.packetBytes, n)
                                     && Lessened(w1, u.cc.threshold.r))
              && (u.cc.window == u.cc.threshold.r || u.cc.window == MIN_WINDOW)
            else
              && u.cc.recoveryStart == s.cc.recoveryStart && u.cc.threshold == s.cc.threshold
              && Grown(s.cc.window, u.cc.window, s.cc.threshold, s.tx.packetBytes, n)
  {
    hide Tiled, ChunksOk, Counted, CarriedBut, WireOk, Evolves, DetectLoss, AfterWalk, Buffered, OnAck, Acknowledge,
      Exonerate, Grown, Lessened, Earnings, GivenUp, Losses, Persistent, Names;
    var h := News(credit, ranges);
    var heard := s.(tx := s.tx.(peerCredit := Max(s.tx.peerCredit, credit)));
    TouchSteps(s, heard, h);
    OnAckWeighed(s, credit, delay, ranges, t);
    WalkGrows(heard, ranges);
    WalkTakes(heard, ranges);
    AfterWalkShape(heard, ranges);
    EarningsSame(s, heard, ranges);
    var w := Acknowledge(heard, ranges);
    ExonerateStands(w.cc, ranges);
    var timed := Timed(AfterWalk(heard, ranges), w.newest, delay, t);
    AfterWalkKeeps(heard, h);
    TxSameSteps(AfterWalk(heard, ranges), timed, h);
    LossesExact(timed, t);
    LossCuts(timed, t);
    var u := OnAck(s, credit, delay, ranges, t);
    forall pn: nat ensures FreshLoss(timed, t, pn) <==> LateLoss(s, u, ranges, pn) {
      GivenUpOut(timed, t, pn);
    }
    forall pn | FreshLoss(timed, t, pn) ensures pn >= 0 { FreshOut(timed, t, pn); }
  }

  lemma GivenUpOut(s: Stream, t: real, pn: int)
    ensures GivenUp(s, t, pn) ==> pn >= 0 && pn in s.tx.inFlight
  {
  }

  lemma EarningsSame(a: Stream, b: Stream, ranges: seq<Range>)
    requires a.tx.inFlight == b.tx.inFlight && a.cc == b.cc
    ensures Earnings(a.tx, a.cc, ranges) == Earnings(b.tx, b.cc, ranges)
  {
    assert Earning(a.tx, a.cc, ranges) == Earning(b.tx, b.cc, ranges);
  }

  /** Past the threshold, acking a window's bytes adds at most eight packets. */
  lemma EightPacketsAWindow(w: real, v: real, threshold: Ext, packetBytes: nat, n: nat)
    requires w >= 2400.0 && Grown(w, v, threshold, packetBytes, n) && Le(threshold, Fin(w)) && n as real <= w
    ensures v - w <= 8.0 * packetBytes as real
  {
    var d, a := v - w, 8.0 * packetBytes as real;
    Larger(a, n as real, w);
    assert d > a ==> d * w > a * w;
  }

  /** The round trip kept, after one more: the least seen; the smoothed one an eighth of the way to
      what came less the peer's delay, if that is no less than the least; the variation a quarter of
      the way to how far off it was. The first is taken as it is. */
  ghost predicate Blended(r: Rtt, u: Rtt, delay: real) {
    if !r.minRtt.Fin? then u.minRtt == Fin(u.latest) && u.srtt == u.latest && 2.0 * u.rttvar == u.latest
    else
      && u.minRtt == Fin(if u.latest < r.minRtt.r then u.latest else r.minRtt.r)
      && var of := if u.latest - delay < u.minRtt.r then u.latest else u.latest - delay;
         && 8.0 * (u.srtt - r.srtt) == of - r.srtt
         && 4.0 * (u.rttvar - r.rttvar) == (if of < r.srtt then r.srtt - of else of - r.srtt) - r.rttvar
  }

  /** The round trip is timed by the newest packet an ack names, if that was in flight, and by no
      other; and only an ack of something in flight ends the timeouts in a row. */
  lemma AckTimes(s: Stream, credit: nat, delay: nat, ranges: seq<Range>, t: real)
    requires SendOk(s) && ranges != [] && Good(ranges)
    ensures var u, top := OnAck(s, credit, delay, ranges, t).rtt, Top(s, ranges);
            && u.ptoCount == (if NamesFlight(s, ranges) then 0 else s.rtt.ptoCount)
            && (if top >= 0 && top in s.tx.inFlight && Names(ranges, top) then
                  u.latest == t - s.tx.inFlight[top].time && Blended(s.rtt, u, delay as real)
                else u.latest == s.rtt.latest && u.minRtt == s.rtt.minRtt && u.srtt == s.rtt.srtt && u.rttvar == s.rtt.rttvar)
  {
    hide Tiled, ChunksOk, Counted, CarriedBut, WireOk, Evolves, LossScan, AfterWalk, Buffered, OnAck, Acknowledge, Names;
    var heard := s.(tx := s.tx.(peerCredit := Max(s.tx.peerCredit, credit)));
    TouchSteps(s, heard, News(credit, ranges));
    OnAckWeighed(s, credit, delay, ranges, t);
    WalkTakes(heard, ranges);
    AfterWalkShape(heard, ranges);
    assert NamesFlight(heard, ranges) == NamesFlight(s, ranges);
  }

  /** Bytes written and credited wait to be sent. */
  predicate Waits(tx: Tx) { tx.nextOffset < |tx.said| && tx.nextOffset < tx.peerCredit }

  /** Sending goes on until nothing waits, or the window has no room for a packet; and it is taken for
      what limits the stream just when it has none and something waits. */
  lemma {:induction false} FlushTellsLimit(s: Stream, probes: nat, t: real)
    ensures var r := FlushLoop(s, probes, t);
            var full := (r.tx.bytesInFlight + r.tx.packetBytes) as real > r.cc.window;
            && (full || (r.tx.lost == [] && !Waits(r.tx)))
            && (r.cc.windowLimited <==> full && (r.tx.lost != [] || Waits(r.tx)))
    decreases probes, Max(0, s.cc.window.Floor + 1 - s.tx.bytesInFlight)
  {
    if !(probes == 0 && WindowFull(s)) {
      SendNextRx(s, probes > 0, t);
      if NextChunk(s.tx, probes > 0).offset >= 0 {
        FlushTellsLimit(SendNext(s, probes > 0, t), if probes > 0 then probes - 1 else 0, t);
      }
    }
  }

  // ── the round trip ───────────────────────────────────────────────────────────────────

  function Samples(rtt: Rtt, latest: real, k: nat): Rtt {
    if k == 0 then rtt else Sample(Samples(rtt, latest, k - 1), latest, 0.0)
  }

  function RPow(x: real, k: nat): real { if k == 0 then 1.0 else x * RPow(x, k - 1) }

  /** `e` away from a steady round trip and varying by `v`, from `d` away and varying by `v0`: `p`
      of the first is left, and of the second `q`. */
  ghost predicate Decayed(e: real, v: real, d: real, v0: real, p: real, q: real) {
    e == p * d && v == q * v0 + 2.0 * RAbs(d) * (p - q)
  }

  /** Under a steady round trip the smoothed one comes to it by an eighth of what is left with each
      sample, and the variation dies out: in closed form, from any start with a least known. */
  lemma {:induction false} SamplesConverge(rtt: Rtt, latest: real, k: nat)
    requires rtt.minRtt.Fin? && rtt.minRtt.r <= latest
    ensures var r := Samples(rtt, latest, k);
            && r.minRtt == rtt.minRtt
            && Decayed(r.srtt - latest, r.rttvar, rtt.srtt - latest, rtt.rttvar, RPow(0.875, k), RPow(0.75, k))
  {
    hide Sample, Decayed;
    if k == 0 {
      NoneDecayed(rtt.srtt - latest, rtt.rttvar);
    } else {
      SamplesConverge(rtt, latest, k - 1);
      SampleMoves(Samples(rtt, latest, k - 1), latest);
      var r, u := Samples(rtt, latest, k - 1), Samples(rtt, latest, k);
      PowPositive(0.875, k - 1);
      OneDecayed(r.srtt - latest, r.rttvar, u.srtt - latest, u.rttvar, rtt.srtt - latest, rtt.rttvar,
                 RPow(0.875, k - 1), RPow(0.75, k - 1));
    }
  }

  lemma NoneDecayed(d: real, v0: real)
    ensures Decayed(d, v0, d, v0, 1.0, 1.0)
  {
  }

  lemma OneDecayed(e: real, v: real, e': real, v': real, d: real, v0: real, p: real, q: real)
    requires Decayed(e, v, d, v0, p, q) && p > 0.0 && e' == 0.875 * e && v' == 0.75 * v + 0.25 * RAbs(e)
    ensures Decayed(e', v', d, v0, 0.875 * p, 0.75 * q)
  {
    assert RAbs(e) == p * RAbs(d);
  }

  lemma SampleMoves(r: Rtt, latest: real)
    requires r.minRtt.Fin? && r.minRtt.r <= latest
    ensures var u := Sample(r, latest, 0.0);
            && u.minRtt == r.minRtt && u.srtt - latest == 0.875 * (r.srtt - latest)
            && u.rttvar == 0.75 * r.rttvar + 0.25 * RAbs(r.srtt - latest)
  {
  }

  lemma {:induction false} PowPositive(x: real, k: nat)
    requires x > 0.0
    ensures RPow(x, k) > 0.0
  {
    if k > 0 { PowPositive(x, k - 1); }
  }
}
