/** `UdpStream` (WASM/transport/src/stream.js) as the object it is: fields that its handlers
    update in place, with their loops. Each method is proved to compute the function of the
    same purpose in StreamSpec, so what the Stream*.dfy files prove holds of the object, and
    every handler keeps it as the class invariant.

    The fields are grouped as StreamSpec groups them: sending, congestion, round trips,
    receiving and life. The path is the log of the packets handed to it, and the two `Pieces`
    queues are held as values. */
module UdpStreams {
  import opened Base
  import opened AckRanges
  import S = StreamSpec
  import opened StreamSender
  import opened StreamReceiver
  import opened StreamNetwork
  import opened StreamFlow

  /** The live sent offsets ascend, lie on cuts, and miss no chunk not acked. */
  ghost predicate Index(tx: S.Tx, live: seq<nat>) {
    && (forall i :: 0 <= i < |live| ==> live[i] < tx.nextOffset && live[i] in tx.bounds)
    && (forall i, j :: 0 <= i < j < |live| ==> live[i] < live[j])
    && (forall o :: o in tx.chunks ==> o in live)
  }

  lemma IndexTail(tx: S.Tx, live: seq<nat>)
    requires Index(tx, live) && live != [] && live[0] !in tx.chunks
    ensures Index(tx, live[1..])
  {
  }

  lemma IndexOldest(tx: S.Tx, live: seq<nat>)
    requires Index(tx, live) && (live == [] || live[0] in tx.chunks)
    ensures S.OldestChunk(tx) == if live == [] then -1 else live[0]
  {
    if live != [] {
      forall o | o in tx.chunks ensures live[0] <= o {
        var k :| 0 <= k < |live| && live[k] == o;
      }
    }
  }

  /** Acks and losses leave the index of what is still unacked alone. */
  lemma IndexKept(a: S.Tx, b: S.Tx, live: seq<nat>)
    requires Index(a, live) && a.nextOffset <= b.nextOffset && a.bounds <= b.bounds && b.chunks.Keys <= a.chunks.Keys
    ensures Index(b, live)
  {
  }

  lemma SameChunks(a: S.Tx, b: S.Tx)
    requires ChunksOk(a) && b == a.(lost := b.lost)
    ensures ChunksOk(b)
  {
    forall o | o in b.chunks ensures Carries(b, o, b.chunks[o]) { assert Carries(a, o, a.chunks[o]); }
  }

  lemma IndexNew(a: S.Tx, b: S.Tx, live: seq<nat>)
    requires Index(a, live) && a.nextOffset < b.nextOffset && a.bounds <= b.bounds && a.nextOffset in b.bounds
    requires b.chunks.Keys == a.chunks.Keys + {a.nextOffset}
    ensures Index(b, live + [a.nextOffset])
  {
  }

  ghost predicate Ascends(s: seq<nat>) { forall i, j :: 0 <= i < j < |s| ==> s[i] < s[j] }

  lemma InsertKeeps(live: seq<nat>, k: nat, rest: nat)
    requires k < |live|
    ensures forall x :: x in live[..k + 1] + [rest] + live[k + 1..] <==> x in live || x == rest
  {
    assert live == live[..k + 1] + live[k + 1..];
  }

  lemma InsertAscends(live: seq<nat>, k: nat, rest: nat)
    requires Ascends(live) && k < |live| && live[k] < rest && (k + 1 < |live| ==> rest < live[k + 1])
    ensures var more := live[..k + 1] + [rest] + live[k + 1..];
            Ascends(more) && forall x :: x in more <==> x in live || x == rest
  {
    InsertKeeps(live, k, rest);
    var more := live[..k + 1] + [rest] + live[k + 1..];
    forall i, j | 0 <= i < j < |more| ensures more[i] < more[j] {
      assert more[i] == if i <= k then live[i] else if i == k + 1 then rest else live[i - 1];
      assert more[j] == if j <= k then live[j] else if j == k + 1 then rest else live[j - 1];
    }
  }
  /** A split chunk's rest goes in right behind it. */
  lemma IndexSplit(tx: S.Tx, live: seq<nat>, k: nat)
    requires Index(tx, live) && Tiled(tx) && ChunksOk(tx)
    requires k < |live| && live[k] in tx.chunks && S.DATA_HEADER + |tx.chunks[live[k]]| > tx.packetBytes
    ensures Index(S.Fit(tx, live[k]), live[..k + 1] + [live[k] + tx.packetBytes - S.DATA_HEADER] + live[k + 1..])
  {
    hide Ascends, Carries, Index, Tiled, ChunksOk;
    var rest := live[k] + tx.packetBytes - S.DATA_HEADER;
    SplitFits(tx, live, k, rest);
    InsertAscends(live, k, rest);
    SplitIndexes(tx, live, k, rest, live[..k + 1] + [rest] + live[k + 1..]);
  }

  lemma SplitFits(tx: S.Tx, live: seq<nat>, k: nat, rest: nat)
    requires Index(tx, live) && Tiled(tx) && ChunksOk(tx) && k < |live| && live[k] in tx.chunks
    requires live[k] < rest < live[k] + |tx.chunks[live[k]]|
    ensures Ascends(live) && rest < tx.nextOffset && (k + 1 < |live| ==> rest < live[k + 1])
  {
    assert Carries(tx, live[k], tx.chunks[live[k]]);
    if k + 1 < |live| { assert live[k + 1] in tx.bounds && live[k] < live[k + 1]; }
  }

  lemma SplitIndexes(tx: S.Tx, live: seq<nat>, k: nat, rest: nat, more: seq<nat>)
    requires Index(tx, live) && k < |live| && live[k] in tx.chunks && rest == live[k] + tx.packetBytes - S.DATA_HEADER
    requires rest < live[k] + |tx.chunks[live[k]]| && rest < tx.nextOffset
    requires Ascends(more) && forall x :: x in more <==> x in live || x == rest
    ensures Index(S.Fit(tx, live[k]), more)
  {
    hide Ascends, Carries;
    IndexFrom(S.Fit(tx, live[k]), more);
  }

  lemma IndexFrom(tx: S.Tx, live: seq<nat>)
    requires Ascends(live) && (forall x :: x in live ==> x < tx.nextOffset && x in tx.bounds)
    requires forall o :: o in tx.chunks ==> o in live
    ensures Index(tx, live)
  {
    assert forall i :: 0 <= i < |live| ==> live[i] in live;
  }

  lemma SnocBehind(all: seq<nat>, head: nat, x: nat)
    requires head <= |all|
    ensures (all + [x])[head..] == all[head..] + [x]
  {
  }

  lemma TakeFrom(said: seq<byte>, o: nat, n: nat)
    requires o + n <= |said|
    ensures said[o..][..n] == said[o..o + n] && said[o..][n..] == said[o + n..]
  {
  }

  lemma SpliceBehind(all: seq<nat>, head: nat, at: nat, rest: nat)
    requires head <= at < |all|
    ensures var live, k := all[head..], at - head;
            (all[..at + 1] + [rest] + all[at + 1..])[head..] == live[..k + 1] + [rest] + live[k + 1..]
  {
  }

  lemma SetIsSplice<T>(s: seq<T>, i: nat, x: T)
    requires i < |s|
    ensures s[i := x] == s[..i] + [x] + s[i + 1..]
  {
  }

  /** `record`'s merge, on the ranges it is given. */
  method MergeIn(ranges: seq<Range>, pn: nat) returns (r: seq<Range>)
    ensures r == Insert(ranges, pn)
  {
    r := ranges;
    var i := 0;
    while i < |r| && r[i].lo > pn + 1
      invariant 0 <= i <= |r|
      invariant forall j :: 0 <= j < i ==> r[j].lo > pn + 1
    {
      i := i + 1;
    }
    assert i == Slot(r, pn);
    if i == |r| || r[i].hi + 1 < pn {
      r := r[..i] + [Range(pn, pn)] + r[i..];
    } else if pn == r[i].hi + 1 {
      SetIsSplice(r, i, Range(pn, r[i].lo));
      r := r[i := Range(pn, r[i].lo)];
    } else if pn + 1 == r[i].lo {
      SetIsSplice(r, i, Range(r[i].hi, pn));
      if i + 1 < |r| && r[i + 1].hi + 1 == pn {
        r := r[..i] + [Range(r[i].hi, r[i + 1].lo)] + r[i + 2..];
      } else {
        r := r[i := Range(r[i].hi, pn)];
      }
    } else {
      SetIsSplice(r, i, r[i]);
    }
  }

  class UdpStream {
    var tx: S.Tx
    /** Written and not yet cut into chunks, and how much was ever written. */
    var unsent: seq<byte>
    var written: nat
    /** The index of sent offsets; only those from `sentHead` on may still have a chunk. */
    var sentOffsets: seq<nat>
    var sentHead: nat
    var cc: S.Congestion
    var rtt: S.Rtt
    var rx: S.Rx
    /** The bytes held in order. */
    var heldBytes: nat
    var life: S.Life
    var wire: seq<S.Packet>

    /** The stream as a value. */
    ghost function View(): S.Stream
      reads this
    {
      S.Stream(tx, cc, rtt, rx, life, wire)
    }

    ghost predicate Counts()
      reads `tx, `unsent, `written
    {
      tx.nextOffset <= |tx.said| == written && unsent == tx.said[tx.nextOffset..]
    }

    ghost predicate HeldCount()
      reads `rx, `heldBytes
    {
      heldBytes == |Flat(rx.held)|
    }

    ghost predicate Indexed()
      reads `tx, `sentOffsets, `sentHead
    {
      sentHead <= |sentOffsets| && Index(tx, sentOffsets[sentHead..])
    }

    ghost predicate Rep()
      reads this
    {
      Counts() && HeldCount() && Indexed()
    }

    /** Between handlers: both sides of the end are sound, it never stalls, and a cut can be
        undone exactly while it has suspects. */
    ghost predicate Valid()
      reads this
    {
      Rep() && EndOk(View()) && Live(View()) && Episode(cc)
    }

    constructor ()
      ensures Valid() && View() == S.Fresh()
    {
      tx, cc, rtt, rx, life, wire := S.Fresh().tx, S.Fresh().cc, S.Fresh().rtt, S.Fresh().rx, S.Fresh().life, [];
      unsent, written, sentOffsets, sentHead, heldBytes := [], 0, [], 0, 0;
      new;
      FreshOk();
    }

    // ── receiving ──────────────────────────────────────────────────────────────────────

    /** The merge, and the cap on how many ranges are kept. */
    method Record(pn: nat)
      modifies `rx
      ensures rx == old(rx).(ranges := AckRanges.Record(old(rx).ranges, pn))
    {
      var r := MergeIn(rx.ranges, pn);
      if |r| > MAX_RANGES {
        r := r[..MAX_RANGES];
      }
      rx := rx.(ranges := r);
    }

    method Emit(p: S.Packet, t: real)
      modifies `life, `wire
      ensures wire == old(wire) + [p] && life == old(life).(lastSent := t)
    {
      life := life.(lastSent := t);
      wire := wire + [p];
    }

    /** The same packet put on the path `n` times, since nothing acks it. */
    method EmitCopies(p: S.Packet, n: nat, t: real)
      requires n > 0
      modifies `life, `wire
      ensures wire == old(wire) + S.Copies(p, n) && life == old(life).(lastSent := t)
    {
      var i := 0;
      while i < n
        invariant 0 <= i <= n
        invariant wire == old(wire) + S.Copies(p, i)
        invariant life == if i == 0 then old(life) else old(life).(lastSent := t)
      {
        assert S.Copies(p, i) + [p] == S.Copies(p, i + 1);
        Emit(p, t);
        i := i + 1;
      }
    }

    method SendAck(t: real)
      modifies `rx, `life, `wire
      ensures View() == S.SendAck(old(View()), t)
      ensures rx.held == old(rx).held
    {
      if !life.open || life.gone {
        return;
      }
      var given := rx.taken + rx.credit;
      var copies := if given > rx.advertised && rx.furthest >= rx.advertised then 3 else 1;
      rx := rx.(unacked := 0, advertised := given);
      EmitCopies(S.Ack(given, S.AckDelay(t - rx.largestAt), rx.ranges), copies, t);
    }

    /** A number that is next joins the turn's ack; any other is acked here. */
    method Received(pn: nat, t: real)
      modifies `rx, `life, `wire
      ensures View() == S.Received(old(View()), pn, t)
      ensures rx.held == old(rx).held
    {
      hide AckRanges.Record;
      var largest := S.Largest(rx.ranges);
      Record(pn);
      if pn > largest {
        rx := rx.(largestAt := life.lastHeard);
      }
      rx := rx.(turnDue := true);
      if pn != largest + 1 {
        SendAck(t);
      } else {
        rx := rx.(unacked := rx.unacked + 1);
      }
    }

    method OnChunk(pn: nat, offset: nat, floor: nat, bytes: seq<byte>, t: real)
      requires HeldCount()
      modifies `rx, `heldBytes, `life, `wire
      ensures HeldCount() && View() == S.OnChunk(old(View()), pn, offset, floor, bytes, t)
    {
      // Refused silently: Accepts says no honest packet is.
      if offset + |bytes| > rx.taken + rx.credit {
        return;
      }
      Received(pn, t);
      Prune(floor);
      Store(offset, bytes);
      if rx.aheadBytes > 2 * rx.credit || (|rx.held| + |rx.ahead|) * S.MIN_CHUNK > 2 * rx.credit {
        Fail();
      }
    }

    /** Forget the ranges the sender waits on no more. */
    method Prune(floor: nat)
      modifies `rx
      ensures rx == old(rx).(ranges := Trim(old(rx).ranges, floor))
    {
      var r := rx.ranges;
      while |r| > 1 && r[|r| - 1].hi < floor
        invariant Trim(r, floor) == Trim(rx.ranges, floor)
        decreases |r|
      {
        r := r[..|r| - 1];
      }
      rx := rx.(ranges := r);
    }

    method Store(offset: nat, bytes: seq<byte>)
      requires HeldCount()
      modifies `rx, `heldBytes
      ensures HeldCount() && rx == S.Store(old(rx), offset, bytes)
    {
      rx := rx.(furthest := Max(rx.furthest, offset + |bytes|));
      var end := rx.taken + heldBytes;
      if offset == end {
        Append(bytes);
      } else if offset > end && offset !in rx.ahead {
        rx := rx.(ahead := rx.ahead[offset := bytes], aheadBytes := rx.aheadBytes + S.DATA_HEADER + |bytes|);
      }
    }

    /** The next bytes in order, then everything they close the gap to. */
    method Append(bytes: seq<byte>)
      requires HeldCount()
      modifies `rx, `heldBytes
      ensures HeldCount() && rx == S.Append(old(rx), bytes)
    {
      FlatSnoc(rx.held, bytes);
      rx := rx.(held := rx.held + [bytes]);
      heldBytes := heldBytes + |bytes|;
      var end := rx.taken + heldBytes;
      while end in rx.ahead
        invariant HeldCount() && end == rx.taken + heldBytes
        invariant S.Absorb(rx) == S.Absorb(old(rx).(held := old(rx).held + [bytes]))
        decreases |rx.ahead|
      {
        var next := rx.ahead[end];
        FlatSnoc(rx.held, next);
        rx := rx.(ahead := rx.ahead - {end}, aheadBytes := rx.aheadBytes - (S.DATA_HEADER + |next|),
                  held := rx.held + [next]);
        heldBytes := heldBytes + |next|;
        end := rx.taken + heldBytes;
      }
      // Every byte seen is in order, so all that still waits is a duplicate.
      if end == rx.furthest {
        rx := rx.(ahead := map[], aheadBytes := 0);
      }
    }

    /** Take `n` bytes off the front of what is held. */
    method TakeHeld(n: nat) returns (bytes: seq<byte>)
      requires HeldCount() && 0 < n <= heldBytes
      requires forall i :: 0 <= i < |rx.held| ==> |rx.held[i]| > 0
      modifies `rx, `heldBytes
      ensures HeldCount() && rx == old(rx).(held := S.DropBytes(old(rx).held, n))
      ensures bytes == Flat(old(rx).held)[..n]
    {
      ghost var all := Flat(rx.held);
      var got: nat, left := n, rx.held;
      bytes := [];
      DropBytesFlat(rx.held, n);
      while got > 0
        invariant got <= n && got <= |Flat(left)|
        invariant forall i :: 0 <= i < |left| ==> |left[i]| > 0
        invariant S.DropBytes(left, got) == S.DropBytes(rx.held, n)
        invariant bytes == all[..n - got] && Flat(left) == all[n - got..]
        decreases got
      {
        var k := Min(|left[0]|, got);
        assert left[0][..k] == Flat(left)[..k];
        assert all[..n - got] + all[n - got..][..k] == all[..n - got + k];
        bytes := bytes + left[0][..k];
        if k == |left[0]| {
          assert Flat(left)[k..] == Flat(left[1..]);
          left := left[1..];
        } else {
          assert ([left[0][k..]] + left[1..])[1..] == left[1..];
          assert Flat([left[0][k..]] + left[1..]) == Flat(left)[k..];
          left := [left[0][k..]] + left[1..];
        }
        got := got - k;
        assert Flat(left) == all[n - got..];
      }
      rx := rx.(held := left);
      heldBytes := heldBytes - n;
    }

    /** A read, a new credit if this one is used up, and an ack if half of it is not yet told. */
    method Deliver(t: real)
      requires HeldCount() && RxOk(rx)
      modifies `rx, `heldBytes, `life, `wire
      ensures HeldCount() && View() == S.Deliver(old(View()), t)
    {
      HandOver();
      TuneCredit(t);
      if 2 * (rx.taken + rx.credit - rx.advertised) >= rx.credit {
        SendAck(t);
      }
    }

    method TuneCredit(t: real)
      requires HeldCount()
      modifies `rx
      ensures HeldCount() && View() == S.TuneCredit(old(View()), t)
    {
      if rx.taken >= rx.creditEnd {
        if rx.creditAt.Fin? && t - rx.creditAt.r < 2.0 * rtt.srtt {
          rx := rx.(credit := Min(2 * rx.credit, S.MAX_CREDIT));
        }
        rx := rx.(creditAt := Fin(t), creditEnd := rx.taken + rx.credit);
      }
    }

    method HandOver()
      requires HeldCount() && RxOk(rx)
      modifies `rx, `heldBytes
      ensures HeldCount() && View() == S.HandOver(old(View()))
    {
      if !rx.reading && rx.hasReader && heldBytes > 0 && !life.gone {
        var bytes := TakeHeld(Min(heldBytes, S.MAX_READ));
        rx := rx.(handed := rx.handed + bytes, taken := rx.taken + |bytes|, reading := true);
      }
    }

    // ── sending ────────────────────────────────────────────────────────────────────────

    /** Skips the index past acked offsets; what it drops has no chunk, so Indexed holds. */
    method OldestChunk() returns (oldest: int)
      requires Indexed()
      modifies `sentOffsets, `sentHead
      ensures Indexed() && oldest == S.OldestChunk(tx)
    {
      while sentHead < |sentOffsets| && sentOffsets[sentHead] !in tx.chunks
        invariant Indexed()
        decreases |sentOffsets| - sentHead
      {
        IndexTail(tx, sentOffsets[sentHead..]);
        assert sentOffsets[sentHead..][1..] == sentOffsets[sentHead + 1..];
        sentHead := sentHead + 1;
      }
      IndexOldest(tx, sentOffsets[sentHead..]);
      if sentHead > 1024 && sentHead * 2 > |sentOffsets| {
        sentOffsets := sentOffsets[sentHead..];
        sentHead := 0;
        assert sentOffsets[sentHead..] == sentOffsets;
      }
      oldest := if sentHead < |sentOffsets| then sentOffsets[sentHead] else -1;
    }

    /** From the least offset unacked to the end of what was written. */
    method Buffered() returns (n: int)
      requires Counts() && Indexed()
      modifies `sentOffsets, `sentHead
      ensures Indexed() && n == S.Buffered(tx)
    {
      var oldest := OldestChunk();
      n := written - (if oldest < 0 then tx.nextOffset else oldest);
    }

    method AdvanceOldest()
      modifies `tx
      ensures tx == S.AdvanceOldest(old(tx))
    {
      while tx.oldestPn < tx.nextPn && tx.oldestPn !in tx.inFlight
        invariant S.AdvanceOldest(tx) == S.AdvanceOldest(old(tx))
        decreases tx.nextPn - tx.oldestPn
      {
        tx := tx.(oldestPn := tx.oldestPn + 1);
      }
    }

    /** Be woken by `RecoveryDue`. */
    method Arm()
      modifies `life
      ensures View() == S.Arm(old(View()))
    {
      if life.gone || |tx.inFlight| == 0 {
        return;
      }
      var at := S.RecoveryDue(rtt);
      if Le(life.recoveryAt, at) {
        return;
      }
      life := life.(recoveryAt := at);
    }

    method Fail()
      modifies `life
      ensures life == old(life).(gone := true)
    {
      life := life.(gone := true);
    }

    /** Where a chunk not acked stands in the sent offsets. */
    method IndexOf(offset: nat) returns (at: nat)
      requires Indexed() && offset in tx.chunks
      ensures sentHead <= at < |sentOffsets| && sentOffsets[at] == offset
    {
      at := sentHead;
      while at < |sentOffsets| && sentOffsets[at] != offset
        invariant sentHead <= at <= |sentOffsets|
        invariant offset in sentOffsets[at..]
      {
        assert sentOffsets[at..] == [sentOffsets[at]] + sentOffsets[at + 1..];
        at := at + 1;
      }
    }

    /** The split puts its new offset right behind the old one, where the index still ascends. */
    method Fit(offset: nat)
      requires Indexed() && Tiled(tx) && ChunksOk(tx) && offset in tx.chunks
      modifies `tx, `sentOffsets
      ensures Indexed() && tx == S.Fit(old(tx), offset)
    {
      hide Index, Carries, SumMap;
      var max := tx.packetBytes - S.DATA_HEADER;
      var chunk := tx.chunks[offset];
      if |chunk| <= max {
        return;
      }
      var rest := offset + max;
      var at := IndexOf(offset);
      IndexSplit(tx, sentOffsets[sentHead..], at - sentHead);
      SpliceBehind(sentOffsets, sentHead, at, rest);
      tx := tx.(chunks := tx.chunks[offset := chunk[..max]][rest := chunk[max..]],
                bounds := tx.bounds + {rest},
                lost := S.AddLost(tx.lost, rest));
      sentOffsets := sentOffsets[..at + 1] + [rest] + sentOffsets[at + 1..];
    }

    /** Lost offsets without a chunk are dropped on the way, as LiveLost drops them. */
    method NextChunk(probe: bool) returns (offset: int)
      requires Counts() && Indexed() && Tiled(tx) && ChunksOk(tx)
      modifies `tx, `unsent, `sentOffsets, `sentHead
      ensures Counts() && Indexed()
      ensures S.Next(tx, offset) == S.NextChunk(old(tx), probe)
    {
      hide Index, Carries, Tiled, ChunksOk;
      while tx.lost != []
        invariant Counts() && Indexed() && tx == old(tx).(lost := tx.lost) && Tiled(tx) && ChunksOk(tx)
        invariant S.LiveLost(tx.lost, tx.chunks) == S.LiveLost(old(tx).lost, tx.chunks)
        decreases |tx.lost|
      {
        var o := tx.lost[0];
        ghost var live := S.LiveLost(tx.lost, tx.chunks);
        if o in tx.chunks {
          assert live == tx.lost;
          Pop();
          Fit(o);
          return o;
        }
        Pop();
      }
      offset := NextFresh(probe);
    }

    method Pop()
      requires Indexed() && tx.lost != [] && Tiled(tx) && ChunksOk(tx)
      modifies `tx
      ensures Indexed() && tx == old(tx).(lost := old(tx).lost[1..]) && Tiled(tx) && ChunksOk(tx)
    {
      hide Index, Carries;
      tx := tx.(lost := tx.lost[1..]);
      IndexKept(old(tx), tx, sentOffsets[sentHead..]);
      SameChunks(old(tx), tx);
    }

    /** NextChunk once no lost offset has a chunk. */
    method NextFresh(probe: bool) returns (offset: int)
      requires Counts() && Indexed() && Tiled(tx) && ChunksOk(tx) && tx.lost == []
      modifies `tx, `unsent, `sentOffsets, `sentHead
      ensures Counts() && Indexed()
      ensures S.Next(tx, offset) == S.NextChunk(old(tx), probe)
    {
      hide Index, Carries, ChunksOk;
      var n := Min(Min(|unsent|, tx.packetBytes - S.DATA_HEADER), tx.peerCredit - tx.nextOffset);
      if n > 0 {
        offset := tx.nextOffset;
        CutNew(n);
        return;
      }
      if probe {
        offset := OldestChunk();
        if offset >= 0 {
          Fit(offset);
        }
      } else {
        offset := -1;
      }
    }

    method CutNew(n: nat)
      requires Counts() && Indexed() && n == S.NewBytes(tx) > 0
      requires tx.nextOffset in tx.bounds
      modifies `tx, `unsent, `sentOffsets
      ensures Counts() && Indexed() && tx == S.CutNew(old(tx))
    {
      hide Index;
      var o := tx.nextOffset;
      TakeFrom(tx.said, o, n);
      IndexNew(tx, S.CutNew(tx), sentOffsets[sentHead..]);
      SnocBehind(sentOffsets, sentHead, o);
      tx := tx.(chunks := tx.chunks[o := unsent[..n]], bounds := tx.bounds + {o + n}, nextOffset := o + n);
      sentOffsets := sentOffsets + [o];
      unsent := unsent[n..];
    }

    method SendChunk(offset: nat, t: real)
      requires offset in tx.chunks
      modifies `tx, `rtt, `life, `wire
      ensures View() == S.SendChunk(old(View()), offset, t)
    {
      var pn, chunk := tx.nextPn, tx.chunks[offset];
      var floor := if tx.probes == [] then tx.oldestPn else Min(tx.oldestPn, tx.probes[0]);
      var size := S.DATA_HEADER + |chunk|;
      tx := tx.(nextPn := pn + 1, numbers := tx.numbers[pn := offset],
                inFlight := tx.inFlight[pn := S.Sent(offset, size, t)],
                bytesInFlight := tx.bytesInFlight + size);
      rtt := rtt.(lastSentData := t);
      Emit(S.Data(pn, offset, floor, chunk), t);
    }

    /** The send loop and the wake that covers what it sent. */
    method Flush(probes: nat, t: real)
      requires Counts() && Indexed() && SendOk(View())
      modifies `tx, `unsent, `sentOffsets, `sentHead, `cc, `rtt, `life, `wire
      ensures Counts() && Indexed() && View() == S.Flush(old(View()), probes, t)
    {
      if !life.open || life.gone {
        return;
      }
      FlushAll(probes, t);
      Arm();
    }

    method FlushAll(probes: nat, t: real)
      requires Counts() && Indexed() && SendOk(View())
      modifies `tx, `unsent, `sentOffsets, `sentHead, `cc, `rtt, `life, `wire
      ensures Counts() && Indexed() && View() == S.FlushLoop(old(View()), probes, t)
    {
      hide Index, Tiled, ChunksOk, NumbersOk, Counted, CarriedBut, WireOk, Evolves, S.SendNext, S.NextChunk;
      var left, going := probes, true;
      while going
        invariant Counts() && Indexed() && SendOk(View())
        invariant going ==> S.FlushLoop(View(), left, t) == S.FlushLoop(old(View()), probes, t)
        invariant !going ==> View() == S.FlushLoop(old(View()), probes, t)
        decreases going, left, Max(0, cc.window.Floor + 1 - tx.bytesInFlight)
      {
        ghost var v := View();
        if left == 0 && (tx.bytesInFlight + tx.packetBytes) as real > cc.window {
          StopFull();
          going := false;
          TxSameSteps(v, View(), Quiet());
        } else {
          SendNextSteps(v, left > 0, t, Quiet());
          going := SendOne(left > 0, t);
          if left > 0 { left := left - 1; }
        }
      }
    }

    method StopFull()
      requires Counts()
      modifies `cc
      ensures cc == old(cc).(windowLimited := tx.lost != [] || (tx.nextOffset < |tx.said| && tx.nextOffset < tx.peerCredit))
    {
      cc := cc.(windowLimited := tx.lost != [] || (unsent != [] && tx.nextOffset < tx.peerCredit));
    }

    /** One turn of the send loop. */
    method SendOne(probe: bool, t: real) returns (sent: bool)
      requires Counts() && Indexed() && Tiled(tx) && ChunksOk(tx)
      modifies `tx, `unsent, `sentOffsets, `sentHead, `cc, `rtt, `life, `wire
      ensures Counts() && Indexed() && View() == S.SendNext(old(View()), probe, t)
      ensures sent <==> S.NextChunk(old(tx), probe).offset >= 0
    {
      hide Index, Carries, Tiled, ChunksOk;
      var offset := NextChunk(probe);
      if offset < 0 {
        cc := cc.(windowLimited := false);
        return false;
      }
      ghost var mid := tx;
      SendChunk(offset, t);
      IndexKept(mid, tx, sentOffsets[sentHead..]);
      return true;
    }

    // ── acks ───────────────────────────────────────────────────────────────────────────

    /** One number an ack names: out of the flight, and its chunk with it. */
    method AckPacket(pn: int, largest: int, before: Option<S.Sent>) returns (newest: Option<S.Sent>)
      requires Counts() && Indexed()
      modifies `tx, `cc, `rtt
      ensures Counts() && Indexed() && rtt == old(rtt).(ptoCount := rtt.ptoCount)
      ensures S.Walk(tx, cc, rtt.ptoCount, newest) == S.AckOne(S.Walk(old(tx), old(cc), old(rtt).ptoCount, before), pn, largest)
    {
      hide Index;
      newest := before;
      if pn < 0 || pn !in tx.inFlight {
        return;
      }
      var sent := tx.inFlight[pn];
      tx := tx.(inFlight := tx.inFlight - {pn}, bytesInFlight := tx.bytesInFlight - sent.size,
                chunks := tx.chunks - {sent.offset});
      rtt := rtt.(ptoCount := 0);
      if pn == largest {
        newest := Some(sent);
      }
      // The branches of Grow.
      if Lt(cc.recoveryStart, Fin(sent.time)) && cc.windowLimited {
        cc := cc.(window := cc.window + (if Lt(Fin(cc.window), cc.threshold) then sent.size as real
                                         else S.Growth(tx.packetBytes, sent.size, cc.window)));
      }
      IndexKept(old(tx), tx, sentOffsets[sentHead..]);
    }

    method AckRange(lo: int, hi: int, largest: int, before: Option<S.Sent>) returns (newest: Option<S.Sent>)
      requires Counts() && Indexed()
      modifies `tx, `cc, `rtt
      ensures Counts() && Indexed() && rtt == old(rtt).(ptoCount := rtt.ptoCount)
      ensures S.Walk(tx, cc, rtt.ptoCount, newest) == S.AckRun(S.Walk(old(tx), old(cc), old(rtt).ptoCount, before), lo, hi, largest)
    {
      hide Index, S.AckOne;
      newest := before;
      var pn := lo;
      while pn <= hi
        invariant Counts() && Indexed() && rtt == old(rtt).(ptoCount := rtt.ptoCount)
        invariant S.AckRun(S.Walk(tx, cc, rtt.ptoCount, newest), pn, hi, largest)
               == S.AckRun(S.Walk(old(tx), old(cc), old(rtt).ptoCount, before), lo, hi, largest)
        decreases hi + 1 - pn
      {
        newest := AckPacket(pn, largest, newest);
        pn := pn + 1;
      }
    }

    /** Walk the numbers an ack names, each range clamped below the one before. */
    method WalkAck(rs: seq<Range>) returns (newest: Option<S.Sent>)
      requires rs != [] && Counts() && Indexed()
      modifies `tx, `cc, `rtt
      ensures Counts() && Indexed() && rtt == old(rtt).(ptoCount := rtt.ptoCount)
      ensures S.Walk(tx, cc, rtt.ptoCount, newest) == S.Acknowledge(old(View()), rs)
    {
      hide Index, S.AckRun;
      var sent := tx.nextPn - 1;
      var largest, below, i := Min(rs[0].hi, sent), sent, 0;
      newest := None;
      assert rs[0..] == rs;
      while i < |rs|
        invariant 0 <= i <= |rs| && Counts() && Indexed() && rtt == old(rtt).(ptoCount := rtt.ptoCount)
        invariant S.AckAll(S.Walk(tx, cc, rtt.ptoCount, newest), rs[i..], below, largest) == S.Acknowledge(old(View()), rs)
      {
        var hi, lo := Min(rs[i].hi, below), Max(rs[i].lo, tx.oldestPn);
        assert rs[i..][1..] == rs[i + 1..];
        if lo <= hi {
          newest := AckRange(lo, hi, largest, newest);
          below := lo - 1;
        }
        i := i + 1;
      }
    }

    /** Whether an ack's ranges name packet `pn`. */
    static method NamesPacket(rs: seq<Range>, pn: nat) returns (named: bool)
      ensures named == Names(rs, pn)
    {
      var i := 0;
      while i < |rs|
        invariant 0 <= i <= |rs|
        invariant forall j :: 0 <= j < i ==> !(rs[j].lo <= pn <= rs[j].hi)
      {
        if rs[i].lo <= pn <= rs[i].hi {
          return true;
        }
        i := i + 1;
      }
      return false;
    }

    /** The search for a named probe decides NamesAny. */
    method ProbeAcked(rs: seq<Range>)
      requires Counts() && Indexed()
      modifies `tx, `life
      ensures Counts() && Indexed() && View() == S.ProbeAcked(old(View()), rs)
    {
      hide Index;
      var i, found := 0, false;
      while i < |tx.probes| && !found
        invariant 0 <= i <= |tx.probes| && tx == old(tx) && life == old(life)
        invariant !found ==> forall j :: 0 <= j < i ==> !Names(rs, tx.probes[j])
        invariant found ==> S.NamesAny(rs, tx.probes)
        decreases |tx.probes| - i, !found
      {
        found := NamesPacket(rs, tx.probes[i]);
        i := i + 1;
      }
      if found {
        life := life.(probeAt := PosInf);
        tx := tx.(probes := [], packetBytes := S.MAX_PACKET);
        IndexKept(old(tx), tx, sentOffsets[sentHead..]);
      }
    }

    /** Spliced out from the back, what is left is Unnamed. */
    method Exonerate(rs: seq<Range>)
      modifies `cc
      ensures cc == S.Exonerate(old(cc), rs)
    {
      var all := cc.suspects;
      var left, i := all, |all|;
      assert all[|all|..] == [];
      while i > 0
        invariant 0 <= i <= |all| && cc == old(cc)
        invariant left == all[..i] + S.Unnamed(all[i..], rs)
      {
        i := i - 1;
        assert all[..i + 1] == all[..i] + [all[i]];
        assert all[i..][1..] == all[i + 1..] && all[i..][0] == all[i];
        var named := NamesPacket(rs, all[i]);
        if named {
          left := left[..i] + left[i + 1..];
        }
      }
      assert all[0..] == all && all[..0] == [];
      cc := cc.(suspects := left);
      if cc.undo.Some? && left == [] {
        cc := cc.(window := RMax(cc.window, cc.undo.value.window), threshold := cc.undo.value.threshold, undo := None);
      }
    }

    method Sample(latest: real, delay: real)
      modifies `rtt
      ensures rtt == S.Sample(old(rtt), latest, delay)
    {
      rtt := rtt.(latest := latest);
      if !rtt.minRtt.Fin? {
        rtt := rtt.(minRtt := Fin(latest), srtt := latest, rttvar := latest / 2.0);
        return;
      }
      rtt := rtt.(minRtt := Fin(RMin(rtt.minRtt.r, latest)));
      var adjusted := if latest - delay >= rtt.minRtt.r then latest - delay else latest;
      rtt := rtt.(rttvar := 0.75 * rtt.rttvar + 0.25 * RAbs(rtt.srtt - adjusted));
      rtt := rtt.(srtt := 0.875 * rtt.srtt + 0.125 * adjusted);
    }

    // ── loss ───────────────────────────────────────────────────────────────────────────

    /** The scan alone: the cut and its suspects are DetectLoss's. */
    method ScanLosses(t: real) returns (c: S.Scan)
      requires Counts() && Indexed()
      modifies `tx
      ensures Counts() && Indexed() && c == S.LossScan(old(View()), t) && tx == c.tx
    {
      hide Index, S.ScanOne;
      ghost var v := S.LossVerdict(View(), t);
      var delay := RMax(9.0 / 8.0 * RMax(rtt.latest, rtt.srtt), 1.0);
      var persistence := S.PERSISTENT_PTOS * S.Pto(rtt);
      AdvanceOldest();
      AdvanceFrame(old(tx));
      IndexKept(old(tx), tx, sentOffsets[sentHead..]);
      c := S.Scan(tx, PosInf, [], NegInf, PosInf, false);
      var pn, end := tx.oldestPn, tx.largestAcked;
      while pn < end
        invariant c.tx == tx && Counts() && Indexed()
        invariant S.ScanFrom(c, pn, v) == S.LossScan(old(View()), t)
      {
        c := ScanPacket(c, pn, S.Verdict(end, t, delay, persistence, cc.recoveryStart));
        pn := pn + 1;
      }
    }

    /** A packet given up on: its chunk, unless acked by another, is to be sent again. */
    method Lose(pn: nat)
      requires Counts() && Indexed() && pn in tx.inFlight
      modifies `tx
      ensures Counts() && Indexed() && tx == S.Lose(old(tx), pn)
    {
      hide Index, S.AddLost;
      var sent := tx.inFlight[pn];
      tx := tx.(inFlight := tx.inFlight - {pn}, bytesInFlight := tx.bytesInFlight - sent.size);
      if sent.offset in tx.chunks {
        tx := tx.(lost := S.AddLost(tx.lost, sent.offset));
      }
      IndexKept(old(tx), tx, sentOffsets[sentHead..]);
    }

    method ScanPacket(c: S.Scan, pn: nat, v: S.Verdict) returns (d: S.Scan)
      requires c.tx == tx && Counts() && Indexed()
      modifies `tx
      ensures d == S.ScanOne(c, pn, v) && tx == d.tx && Counts() && Indexed()
    {
      hide Index, Counts, S.Lose, ExtMin, ExtMax;
      d := c;
      // Persistent congestion needs every number of its run lost.
      if pn !in tx.inFlight {
        d := d.(runFrom := PosInf);
        return;
      }
      var sent := tx.inFlight[pn];
      if !(v.largestAcked - pn >= 3 || sent.time <= v.now - v.delay) {
        d := d.(lossTime := ExtMin(d.lossTime, Fin(sent.time + v.delay)));
        return;
      }
      Lose(pn);
      d := d.(tx := tx, lostSentAt := ExtMax(d.lostSentAt, Fin(sent.time)), lost := d.lost + [pn]);
      if Le(Fin(sent.time), v.recoveryStart) {
      } else if d.runFrom == PosInf {
        d := d.(runFrom := Fin(sent.time));
      } else if d.runFrom.Fin? && sent.time - d.runFrom.r > v.persistence {
        d := d.(persistent := true);
      }
    }

    /** The scan's verdict turned into a cut, if it lost anything newer than the last. */
    method DetectLoss(t: real)
      requires Counts() && Indexed()
      modifies `tx, `cc, `rtt
      ensures Counts() && Indexed() && View() == S.DetectLoss(old(View()), t)
    {
      hide Index, S.LossScan;
      var c := ScanLosses(t);
      rtt := rtt.(lossTime := c.lossTime);
      // The branches of Cut, then those of Suspect.
      if Lt(cc.recoveryStart, c.lostSentAt) {
        var less: S.Window := RMax(cc.window * (15.0 / 16.0), S.MIN_WINDOW);
        cc := cc.(recoveryStart := Fin(t), undo := Some(S.Undo(cc.window, cc.threshold)), suspects := [],
                  window := less, threshold := Fin(less));
        if c.persistent {
          cc := cc.(window := S.MIN_WINDOW);
        }
      }
      if cc.undo.Some? {
        if |cc.suspects| + |c.lost| > S.MAX_SUSPECTS {
          // Nothing can undo this cut now.
          cc := cc.(undo := None, suspects := []);
        } else {
          cc := cc.(suspects := cc.suspects + c.lost);
        }
      }
      AdvanceFrame(tx);
      ghost var scanned := tx;
      AdvanceOldest();
      IndexKept(scanned, tx, sentOffsets[sentHead..]);
    }

    // ── the packet size ────────────────────────────────────────────────────────────────

    /** Probe the path for the larger packets, a bounded number of times. */
    method SendProbe(t: real)
      requires Counts() && Indexed()
      modifies `tx, `life, `wire
      ensures Counts() && Indexed() && View() == S.SendProbe(old(View()), t)
    {
      hide Index;
      life := life.(probeAt := PosInf);
      if life.gone || !life.open {
        return;
      }
      if |tx.probes| >= S.MAX_PROBES {
        tx := tx.(probes := []);
        IndexKept(old(tx), tx, sentOffsets[sentHead..]);
        return;
      }
      var pn := tx.nextPn;
      tx := tx.(nextPn := pn + 1, probes := tx.probes + [pn]);
      IndexKept(old(tx), tx, sentOffsets[sentHead..]);
      Emit(S.Probe(pn), t);
      life := life.(probeAt := Fin(t + S.Pto(rtt)));
    }

    method StartProbe(t: real)
      requires Counts() && Indexed()
      modifies `tx, `life, `wire
      ensures Counts() && Indexed() && View() == S.StartProbe(old(View()), t)
    {
      hide Index, S.SendProbe;
      tx := tx.(probes := []);
      IndexKept(old(tx), tx, sentOffsets[sentHead..]);
      SendProbe(t);
    }

    /** Probes, once, after a start or a drop back. */
    method Reprobe(t: real)
      requires Counts() && Indexed()
      modifies `tx, `life, `wire
      ensures Counts() && Indexed() && View() == S.Reprobe(old(View()), t)
    {
      hide Index, S.StartProbe;
      if tx.reprobe && rtt.ptoCount == 0 {
        tx := tx.(reprobe := false);
        IndexKept(old(tx), tx, sentOffsets[sentHead..]);
        StartProbe(t);
      }
    }

    // ── the handlers' parts ────────────────────────────────────────────────────────────

    /** What an ack names, taken off the flight, the probes and the suspects. */
    method TakeAck(rs: seq<Range>) returns (newest: Option<S.Sent>)
      requires Counts() && Indexed() && rs != []
      modifies `tx, `cc, `rtt, `life
      ensures Counts() && Indexed() && View() == S.AfterWalk(old(View()), rs)
      ensures newest == S.Acknowledge(old(View()), rs).newest
    {
      hide Index, S.Acknowledge, S.ProbeAcked, S.Exonerate, S.AdvanceOldest;
      var largest := Min(rs[0].hi, tx.nextPn - 1);
      newest := WalkAck(rs);
      ProbeAcked(rs);
      Exonerate(rs);
      ghost var mid := tx;
      tx := tx.(largestAcked := Max(tx.largestAcked, largest));
      AdvanceFrame(tx);
      AdvanceOldest();
      IndexKept(mid, tx, sentOffsets[sentHead..]);
    }

    method AckNumbers(delay: nat, rs: seq<Range>, t: real)
      requires Counts() && Indexed() && rs != []
      modifies `tx, `cc, `rtt, `life, `wire
      ensures Counts() && Indexed() && View() == S.AckBody(old(View()), delay, rs, t)
    {
      hide Index, S.AfterWalk, S.Acknowledge, S.Sample, S.DetectLoss, S.Reprobe;
      var newest := TakeAck(rs);
      if newest.Some? {
        Sample(t - newest.value.time, delay as real);
      }
      DetectLoss(t);
      Reprobe(t);
    }

    method OnAck(credit: nat, delay: nat, rs: seq<Range>, t: real)
      requires Counts() && Indexed() && SendOk(View())
      modifies `tx, `unsent, `sentOffsets, `sentHead, `cc, `rtt, `life, `wire
      ensures Counts() && Indexed() && View() == S.OnAck(old(View()), credit, delay, rs, t)
    {
      hide Index, TxOk, WireOk, S.AckBody, S.Flush, S.EndStream, S.Buffered;
      tx := tx.(peerCredit := Max(tx.peerCredit, credit));
      IndexKept(old(tx), tx, sentOffsets[sentHead..]);
      if rs != [] {
        AckNumbers(delay, rs, t);
      }
      AckedOk(old(View()), credit, delay, rs, t);
      if life.closing {
        var left := Buffered();
        if left == 0 {
          EndStream(t);
          return;
        }
      }
      Flush(0, t);
    }

    /** Ends the stream; with a path, three CLOSE packets go out first. */
    method EndStream(t: real)
      modifies `life, `wire
      ensures View() == S.EndStream(old(View()), t)
    {
      if life.gone {
        return;
      }
      if life.open {
        EmitCopies(S.Close, 3, t);
      }
      Fail();
    }

    method OnRecovery(t: real)
      requires Counts() && Indexed() && SendOk(View())
      modifies `tx, `unsent, `sentOffsets, `sentHead, `cc, `rtt, `life, `wire
      ensures Counts() && Indexed() && View() == S.OnRecovery(old(View()), t)
    {
      hide Index, TxOk, WireOk, S.DetectLoss, S.Flush, S.EndStream, S.RecoveryDue, S.TimedOut;
      ghost var woken := old(View()).(life := old(life).(recoveryAt := PosInf));
      life := life.(recoveryAt := PosInf);
      if |tx.inFlight| == 0 {
        return;
      }
      if Lt(Fin(t), S.RecoveryDue(rtt)) {
        Arm();
        return;
      }
      SameOk(old(View()), woken);
      if rtt.lossTime != PosInf {
        DetectLossOk(woken, t);
        DetectLoss(t);
        Flush(0, t);
        return;
      }
      if rtt.ptoCount >= S.MAX_PTOS && t - life.lastHeard > S.DEAD_MS {
        EndStream(t);
        return;
      }
      TimedOutOk(woken);
      TimedOut();
      Flush(2, t);
    }

    /** Counts a timeout, and gives up the larger packets from the second on. */
    method TimedOut()
      requires Counts() && Indexed()
      modifies `tx, `rtt
      ensures Counts() && Indexed() && View() == S.TimedOut(old(View()))
    {
      hide Index;
      if rtt.ptoCount >= 1 && tx.packetBytes > S.BASE_PACKET {
        tx := tx.(packetBytes := S.BASE_PACKET, reprobe := true);
        IndexKept(old(tx), tx, sentOffsets[sentHead..]);
      }
      rtt := rtt.(ptoCount := rtt.ptoCount + 1);
    }

    method Tick(t: real)
      modifies `rx, `life, `wire
      ensures View() == S.Tick(old(View()), t) && rx.held == old(rx).held
    {
      hide S.SendAck, S.EndStream;
      if t - life.lastHeard > S.SILENT_MS {
        Fail();
        return;
      }
      if |tx.inFlight| > 0 && rtt.ptoCount >= S.MAX_PTOS && t - life.lastHeard > S.DEAD_MS {
        EndStream(t);
        return;
      }
      if t - life.lastSent >= S.KEEPALIVE_MS {
        SendAck(t);
      }
      life := life.(liveAt := Fin(t + S.KEEPALIVE_MS));
    }

    method Repathed(rttMs: real, t: real)
      requires Counts() && Indexed()
      modifies `tx, `cc, `rtt
      ensures Counts() && Indexed() && View() == S.Forget(old(View()), rttMs, t)
    {
      hide Index, S.Sample;
      cc := cc.(window := S.INITIAL_WINDOW, threshold := PosInf, recoveryStart := Fin(t), undo := None, suspects := []);
      rtt := rtt.(minRtt := PosInf);
      Sample(rttMs, 0.0);
      rtt := rtt.(ptoCount := 0);
      tx := tx.(packetBytes := S.BASE_PACKET, reprobe := false);
      IndexKept(old(tx), tx, sentOffsets[sentHead..]);
    }

    // ── the handlers ───────────────────────────────────────────────────────────────────

    /** The handler that opens a stream; a second call, or one after the end, does nothing. */
    method Start(t: real)
      requires Valid()
      modifies this
      ensures Valid() && View() == S.Start(old(View()), t)
    {
      hide Index, TxOk, WireOk, RecvOk, Live, S.SendAck, S.Flush, Counts;
      Sound(View(), Started, t);
      if life.gone || life.open {
        return;
      }
      life := life.(open := true, lastHeard := t, lastSent := t, liveAt := Fin(t + S.KEEPALIVE_MS));
      if rx.ranges != [] {
        SendAck(t);
      }
      OpenedOk(old(View()), t);
      Flush(0, t);
      SetReprobe();
    }

    method SetReprobe()
      requires Counts() && Indexed()
      modifies `tx
      ensures Counts() && Indexed() && tx == old(tx).(reprobe := true)
    {
      hide Index;
      tx := tx.(reprobe := true);
      IndexKept(old(tx), tx, sentOffsets[sentHead..]);
    }

    /** A move keeps what is in flight: only a loss sent after it can cut the new window. */
    method Repath(rttMs: real, t: real)
      requires Valid()
      modifies this
      ensures Valid() && View() == S.Repath(old(View()), rttMs, t)
    {
      hide Index, TxOk, WireOk, RecvOk, Live, S.SendAck, S.Flush, S.Forget, S.StartProbe, Counts;
      Sound(View(), Moved(rttMs), t);
      if life.gone {
        return;
      }
      ForgetOk(View(), rttMs, t);
      Repathed(rttMs, t);
      SendAck(t);
      Flush(0, t);
      StartProbe(t);
    }

    /** One packet from the peer. */
    method Receive(p: S.Packet, t: real)
      requires Valid()
      modifies this
      ensures Valid() && View() == S.Receive(old(View()), p, t)
    {
      hide Index, TxOk, WireOk, RecvOk, Live, S.OnChunk, S.OnAck, S.Received, Counts;
      Sound(View(), Arrived(p), t);
      if life.gone {
        return;
      }
      ghost var heard := View().(life := life.(lastHeard := t));
      SameOk(View(), heard);
      life := life.(lastHeard := t);
      match p
      case Data(pn, offset, floor, bytes) =>
        if bytes != [] {
          OnChunk(pn, offset, floor, bytes, t);
        }
      case Ack(credit, delay, ranges) => OnAck(credit, delay, ranges, t);
      case Probe(pn) => Received(pn, t);
      case Close => Fail();
    }

    /** Take bytes to send, or refuse them whole. */
    method Send(bytes: seq<byte>, t: real) returns (ok: bool)
      requires Valid()
      modifies this
      ensures Valid() && View() == S.Send(old(View()), bytes, t)
      ensures ok <==> !S.Refuses(old(View()), |bytes|)
    {
      hide Index, TxOk, WireOk, RecvOk, Live, S.Flush, S.Buffered;
      Sound(View(), Written(bytes), t);
      if life.gone || life.closing {
        return false;
      }
      var waiting := Buffered();
      if waiting + |bytes| > S.MAX_BUFFERED {
        return false;
      }
      if bytes == [] {
        return true;
      }
      WriteKeeps(View(), bytes);
      Write(bytes);
      Flush(0, t);
      return true;
    }

    method Write(bytes: seq<byte>)
      requires Counts() && Indexed()
      modifies `tx, `unsent, `written
      ensures Counts() && Indexed() && tx == old(tx).(said := old(tx).said + bytes)
    {
      hide Index;
      assert (tx.said + bytes)[tx.nextOffset..] == tx.said[tx.nextOffset..] + bytes;
      tx := tx.(said := tx.said + bytes);
      IndexKept(old(tx), tx, sentOffsets[sentHead..]);
      unsent := unsent + bytes;
      written := written + |bytes|;
    }

    /** What Received left for later. */
    method Turn(t: real)
      requires Valid()
      modifies `rx, `heldBytes, `life, `wire
      ensures Valid() && View() == S.Turn(old(View()), t)
    {
      hide Index, TxOk, WireOk, Live, RxOk, S.Overrun, S.Deliver, S.SendAck;
      Sound(View(), TurnEnded, t);
      FlagsOk(rx, false, rx.hasReader, rx.reading);
      rx := rx.(turnDue := false);
      Deliver(t);
      if rx.unacked > 0 {
        SendAck(t);
      }
    }

    /** From now on there is someone to hand bytes to. */
    method Reader(t: real)
      requires Valid()
      modifies `rx, `heldBytes, `life, `wire
      ensures Valid() && View() == S.Reader(old(View()), t)
    {
      hide Index, TxOk, WireOk, Live, RxOk, S.Overrun, S.Deliver;
      Sound(View(), ReaderSet, t);
      FlagsOk(rx, rx.turnDue, true, rx.reading);
      rx := rx.(hasReader := true);
      Deliver(t);
    }

    /** The reader has decoded the last bytes handed over. */
    method ReadDone(t: real)
      requires Valid()
      modifies `rx, `heldBytes, `life, `wire
      ensures Valid() && View() == S.ReadDone(old(View()), t)
    {
      hide Index, TxOk, WireOk, Live, RxOk, S.Overrun, S.Deliver;
      Sound(View(), ReadSettled, t);
      FlagsOk(rx, rx.turnDue, rx.hasReader, false);
      rx := rx.(reading := false);
      Deliver(t);
    }

    /** Ends the stream, or lingers while a graceful close has something unacked. */
    method CloseStream(graceful: bool, t: real)
      requires Valid()
      modifies this
      ensures Valid() && View() == S.CloseStream(old(View()), graceful, t)
    {
      hide Index, TxOk, WireOk, RecvOk, Live, S.EndStream, S.Buffered;
      Sound(View(), Closing(graceful), t);
      if life.gone || life.closing {
        return;
      }
      if graceful && life.open {
        var waiting := Buffered();
        if waiting > 0 {
          life := life.(closing := true, lingerAt := Fin(t + S.LINGER_MS));
          return;
        }
      }
      EndStream(t);
    }

    /** One wake: do what is due, and say when the next is. */
    method OnWake(t: real) returns (next: Ext)
      requires Valid()
      modifies this
      ensures Valid() && View() == S.OnWake(old(View()), t)
      ensures life.gone ==> next == PosInf
      ensures !life.gone ==> next == ExtMin(ExtMin(life.recoveryAt, life.probeAt), ExtMin(life.liveAt, life.lingerAt))
      ensures !life.gone && tx.inFlight != map[] ==> Le(next, S.RecoveryDue(rtt))
    {
      hide Index, TxOk, WireOk, RecvOk, S.EndStream, S.Tick, S.OnRecovery, S.SendProbe, Counts, S.RecoveryDue;
      Sound(View(), Woken, t);
      if life.gone {
        return PosInf;
      }
      if Le(life.lingerAt, Fin(t)) {
        EndStream(t);
        EndStreamGone(old(View()), t);
        return PosInf;
      }
      TickedOk(View(), t);
      if Le(life.liveAt, Fin(t)) {
        Tick(t);
      }
      if !life.gone && Le(life.recoveryAt, Fin(t)) {
        OnRecovery(t);
      }
      if !life.gone && Le(life.probeAt, Fin(t)) {
        SendProbe(t);
      }
      return if life.gone then PosInf else ExtMin(ExtMin(life.recoveryAt, life.probeAt), ExtMin(life.liveAt, life.lingerAt));
    }
  }

  // ── what the handlers rest on ──────────────────────────────────────────────────────

  /** Every handler keeps the end sound, unstalled and its cuts accounted for. */
  lemma Sound(s: S.Stream, ev: Event, t: real)
    requires EndOk(s) && Live(s) && Episode(s.cc)
    ensures var u := Step(s, ev, t); EndOk(u) && Live(u) && Episode(u.cc)
  {
    hide TxOk, WireOk, Evolves, RxOk, RxGrows, NamesOnly, S.Overrun, Step, Live, Episode;
    StepKeeps(s, ev, t);
    NeverStalls(s, ev, t);
    EveryCutIsANewLoss(s, ev, t);
  }

  lemma AckedOk(s: S.Stream, credit: nat, delay: nat, ranges: seq<Range>, t: real)
    requires SendOk(s)
    ensures var heard := s.(tx := s.tx.(peerCredit := Max(s.tx.peerCredit, credit)));
            SendOk(if ranges == [] then heard else S.AckBody(heard, delay, ranges, t))
  {
    hide Tiled, ChunksOk, Counted, CarriedBut, WireOk, Evolves;
    var h := News(credit, ranges);
    var heard := s.(tx := s.tx.(peerCredit := Max(s.tx.peerCredit, credit)));
    TouchSteps(s, heard, h);
    if ranges != [] { AckBodyKeeps(heard, delay, h, t); }
  }

  lemma SameOk(s: S.Stream, u: S.Stream)
    requires SendOk(s) && u.tx == s.tx && u.wire == s.wire
    ensures SendOk(u)
  {
  }

  lemma DetectLossOk(s: S.Stream, t: real)
    requires SendOk(s)
    ensures SendOk(S.DetectLoss(s, t))
  {
    hide TxOk, WireOk, Evolves;
    DetectLossKeeps(s, t, Quiet());
  }

  lemma TimedOutOk(s: S.Stream)
    requires SendOk(s)
    ensures SendOk(S.TimedOut(s))
  {
    hide Tiled, ChunksOk, Counted, CarriedBut, WireOk, Evolves;
    TouchSteps(s, S.TimedOut(s), Quiet());
  }

  lemma OpenedOk(s: S.Stream, t: real)
    requires SendOk(s)
    ensures SendOk(S.Opened(s, t)) && SendOk(S.SendAck(S.Opened(s, t), t))
  {
    hide TxOk, WireOk, Evolves, S.SendAck;
    var up := S.Opened(s, t);
    SameOk(s, up);
    SendAckSame(up, t);
    TxSameSteps(up, S.SendAck(up, t), Quiet());
  }

  lemma ForgetOk(s: S.Stream, rttMs: real, t: real)
    requires SendOk(s)
    ensures SendOk(S.SendAck(S.Forget(s, rttMs, t), t))
  {
    hide Tiled, ChunksOk, Counted, CarriedBut, WireOk, Evolves, S.SendAck;
    var m := S.Forget(s, rttMs, t);
    TouchSteps(s, m, Quiet());
    SendAckSame(m, t);
    TxSameSteps(m, S.SendAck(m, t), Quiet());
  }

  lemma TickedOk(s: S.Stream, t: real)
    requires SendOk(s)
    ensures SendOk(S.Tick(s, t))
  {
    hide TxOk, WireOk, Evolves, S.Tick;
    TickSame(s, t);
    TxSameSteps(s, S.Tick(s, t), Quiet());
  }

  lemma EndStreamGone(s: S.Stream, t: real)
    ensures S.EndStream(s, t).life.gone
  {
  }

  lemma FlagsOk(rx: S.Rx, turnDue: bool, hasReader: bool, reading: bool)
    requires RxOk(rx)
    ensures RxOk(rx.(turnDue := turnDue, hasReader := hasReader, reading := reading))
  {
  }
}
