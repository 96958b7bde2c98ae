/** The channel's record layer (WASM/transport/src/ake.js:384-491, 762-812), as functions on
    values: what each event and each step of a link's work chain makes of one end. The frames
    one end delivers are proved to be a prefix of those the other sealed, whatever the network
    hands it, and a clean end to mean that none is missing. */
module Records {
  import opened Base

  const TAG_LEN: nat := 16
  const REJECT_AFTER_EPOCHS: nat := 0x1_0000

  /** The ciphers, as functions: sealing and opening under a key and a nonce, and the ratchet. */
  datatype Suite = Suite(seal: (Bytes, Bytes, Bytes) -> Bytes, open: (Bytes, Bytes, Bytes) -> Option<Bytes>, ratchet: Bytes -> Bytes)

  /** Opening undoes sealing. */
  ghost predicate Lawful(c: Suite) {
    forall k, n, m :: c.open(k, n, c.seal(k, n, m)) == Some(m)
  }

  /** A link's limits. */
  datatype Limits = Limits(maxFrame: nat, rekeyAfter: nat, maxSlices: nat, maxQueueBytes: nat)

  /** A step waiting on the work chain. `Early` seals what was queued before authentication. */
  datatype Task = Early(frame: Bytes) | Seal(frame: Bytes) | Decode(body: Bytes) | Finish

  /** One end of an authenticated link. `accepted`, `sealed`, `wire`, `got` and `delivered` are
      history: every frame taken to be sent, every frame sealed and the record it made, every
      frame opened, every frame passed on. */
  datatype End = End(
    sendKey: Option<Bytes>, recvKey: Option<Bytes>,
    sendEpoch: nat, sendCtr: nat, recvEpoch: nat, recvCtr: nat,
    queuedSlices: int, queuedBytes: int,
    closed: bool, parting: bool, closedLocally: bool, aborted: bool, peerSaidGoodbye: bool,
    work: seq<Task>,
    accepted: seq<Bytes>, sealed: seq<Bytes>, wire: seq<Bytes>, got: seq<Bytes>, delivered: seq<Bytes>)

  datatype Env = Env(c: Suite, limits: Limits)

  /** A link that has just authenticated, with the frames queued until then. */
  function Authenticated(sendKey: Bytes, recvKey: Bytes, early: seq<Bytes>): End {
    End(Some(sendKey), Some(recvKey), 0, 0, 0, 0, 0, 0, false, false, false, false, false,
        seq(|early|, i requires 0 <= i < |early| => Early(early[i])), early, [], [], [], [])
  }

  /** A nonce of the epoch and the counter, never sent. */
  function Nonce(epoch: nat, ctr: nat): Bytes { Put32(epoch) + [0, 0, 0, 0] + Put32(ctr) }

  // ── what happens to a link ─────────────────────────────────────────────────────────

  function EndLink(s: End, farewell: bool, defensive: bool): End {
    if s.closed then (if farewell then s else s.(parting := false))
    else
      s.(closed := true, closedLocally := true, aborted := s.aborted || defensive,
         parting := farewell && !s.peerSaidGoodbye && s.sendEpoch < REJECT_AFTER_EPOCHS,
         work := s.work + [Finish])
  }

  function Close(s: End): End { EndLink(s, true, false) }
  function Abort(s: End, defensive: bool): End { EndLink(s, false, defensive) }

  function Send(e: Env, s: End, frame: Bytes): End {
    if s.closed || |frame| > e.limits.maxFrame - TAG_LEN || frame == [] then s
    else if s.sendEpoch >= REJECT_AFTER_EPOCHS then Close(s)
    else if s.queuedSlices >= e.limits.maxSlices || |frame| > e.limits.maxQueueBytes - s.queuedBytes then Abort(s, false)
    else s.(queuedSlices := s.queuedSlices + 1, queuedBytes := s.queuedBytes + |frame|, work := s.work + [Seal(frame)],
               accepted := s.accepted + [frame])
  }

  function Arrive(s: End, body: Bytes): End {
    if s.closed then s else s.(work := s.work + [Decode(body)])
  }

  /** The socket went away. */
  function ChannelClosed(s: End): End {
    if s.closed then s else Teardown(s.(closed := true))
  }

  function Teardown(s: End): End { s.(sendKey := None, recvKey := None) }

  // ── the work chain ─────────────────────────────────────────────────────────────────

  /** One frame sealed: the key ratchets once it has served its count. */
  function SealFrame(e: Env, s: End, frame: Bytes): End
    requires s.sendKey.Some?
  {
    var key := s.sendKey.value;
    var t := s.(sealed := s.sealed + [frame], wire := s.wire + [e.c.seal(key, Nonce(s.sendEpoch, s.sendCtr), frame)]);
    if s.sendCtr + 1 >= e.limits.rekeyAfter
    then t.(sendKey := Some(e.c.ratchet(key)), sendEpoch := s.sendEpoch + 1, sendCtr := 0)
    else t.(sendCtr := s.sendCtr + 1)
  }

  /** A frame's record sent: with no key left, or a channel that does not take it, the link fails. */
  function WireRecord(e: Env, s: End, frame: Bytes, wired: bool): End {
    if s.sendKey.None? then Abort(s, false)
    else if wired then SealFrame(e, s, frame)
    else Abort(SealFrame(e, s, frame), false)
  }

  function OnRecord(e: Env, s: End, body: Bytes): End {
    if s.recvKey.None? || |body| < TAG_LEN || |body| > e.limits.maxFrame then Abort(s, true)
    else if s.recvEpoch >= REJECT_AFTER_EPOCHS then Abort(s, false)
    else
      var r := e.c.open(s.recvKey.value, Nonce(s.recvEpoch, s.recvCtr), body);
      if r.None? then Abort(s, true)
      else
        var t := Advance(e, s).(got := s.got + [r.value]);
        if r.value == [] then Close(t.(peerSaidGoodbye := true))
        else t.(delivered := t.delivered + [r.value])
  }

  function Advance(e: Env, s: End): End
    requires s.recvKey.Some?
  {
    if s.recvCtr + 1 >= e.limits.rekeyAfter
    then s.(recvKey := Some(e.c.ratchet(s.recvKey.value)), recvEpoch := s.recvEpoch + 1, recvCtr := 0)
    else s.(recvCtr := s.recvCtr + 1)
  }

  /** The goodbye, unless a failure since ended the parting or the epochs are used up. */
  function Farewell(e: Env, s: End): End {
    if s.parting && s.sendKey.Some? && s.sendEpoch < REJECT_AFTER_EPOCHS then SealFrame(e, s, []) else s
  }

  function RunTask(e: Env, s: End, task: Task, wired: bool): End {
    match task
    case Early(frame) => WireRecord(e, s, frame, wired)
    case Seal(frame) =>
      var t := if s.closed && !s.parting then s else WireRecord(e, s, frame, wired);
      t.(queuedSlices := t.queuedSlices - 1, queuedBytes := t.queuedBytes - |frame|)
    case Decode(body) => if s.closed then s else OnRecord(e, s, body)
    case Finish => Teardown(Farewell(e, s))
  }

  /** The chain's next step; `wired` is whether the channel took what it sent. */
  function Work(e: Env, s: End, wired: bool): End {
    if s.work == [] then s else RunTask(e, s.(work := s.work[1..]), s.work[0], wired)
  }

  datatype Event =
    | Sending(frame: Bytes)
    | Arriving(body: Bytes)
    | Working(wired: bool)
    | Closing
    | Failing(defensive: bool)
    | Dropped

  function Step(e: Env, s: End, ev: Event): End {
    match ev
    case Sending(frame) => Send(e, s, frame)
    case Arriving(body) => Arrive(s, body)
    case Working(wired) => Work(e, s, wired)
    case Closing => Close(s)
    case Failing(defensive) => Abort(s, defensive)
    case Dropped => ChannelClosed(s)
  }

  // ── one end's counting ─────────────────────────────────────────────────────────────

  /** Records per epoch: a count of none ratchets with every record, as a count of one does. */
  function Per(e: Env): (r: nat)
    ensures r >= 1
  {
    Max(1, e.limits.rekeyAfter)
  }

  function Chain(c: Suite, key: Bytes, epoch: nat): Bytes {
    if epoch == 0 then key else c.ratchet(Chain(c, key, epoch - 1))
  }

  /** The key and the nonce of a direction's i-th record. */
  function KeyAt(e: Env, key: Bytes, i: nat): Bytes { Chain(e.c, key, i / Per(e)) }
  function NonceAt(e: Env, i: nat): Bytes { Nonce(i / Per(e), i % Per(e)) }

  lemma NextPlace(per: nat, i: nat, epoch: nat, ctr: nat)
    requires per >= 1 && epoch == i / per && ctr == i % per
    ensures ctr + 1 >= per ==> (i + 1) / per == epoch + 1 && (i + 1) % per == 0
    ensures ctr + 1 < per ==> (i + 1) / per == epoch && (i + 1) % per == ctr + 1
  {
    assert i == per * epoch + ctr;
    if ctr + 1 >= per {
      assert i + 1 == per * (epoch + 1);
      Place(per, epoch + 1, 0);
    } else {
      Place(per, epoch, ctr + 1);
    }
  }

  lemma Place(per: nat, epoch: nat, ctr: nat)
    requires ctr < per
    ensures (per * epoch + ctr) / per == epoch && (per * epoch + ctr) % per == ctr
  {
    var i := per * epoch + ctr;
    var d: int := epoch as int - i / per;
    assert per * d == i % per - ctr by {
      assert i == per * (i / per) + i % per;
      assert per * d == per * epoch - per * (i / per);
    }
    assert d >= 1 ==> per * d >= per;
    assert d <= -1 ==> per * d <= 0 - per;
  }

  /** The sending key and counters stand where the number of records sealed puts them, and
      each record is its frame sealed there. */
  ghost predicate SendsInStep(e: Env, s: End, send: Bytes) {
    && s.sendEpoch == |s.sealed| / Per(e) && s.sendCtr == |s.sealed| % Per(e)
    && (s.sendKey.Some? ==> s.sendKey.value == Chain(e.c, send, s.sendEpoch))
    && |s.wire| == |s.sealed|
    && forall i :: 0 <= i < |s.wire| ==> s.wire[i] == e.c.seal(KeyAt(e, send, i), NonceAt(e, i), s.sealed[i])
  }

  /** The receiving key and counters stand where the number of records opened puts them. */
  ghost predicate ReadsInStep(e: Env, s: End, recv: Bytes) {
    && s.recvEpoch == |s.got| / Per(e) && s.recvCtr == |s.got| % Per(e)
    && (s.recvKey.Some? ==> s.recvKey.value == Chain(e.c, recv, s.recvEpoch))
  }

  ghost predicate InStep(e: Env, s: End, send: Bytes, recv: Bytes) { SendsInStep(e, s, send) && ReadsInStep(e, s, recv) }

  ghost predicate TaskOk(t: Task) { (t.Early? || t.Seal?) ==> t.frame != [] }

  /** The goodbye is the last record ever sealed, and the last one opened. */
  ghost predicate GoodbyeLast(s: End) {
    && (forall t :: t in s.work ==> TaskOk(t))
    && (forall i :: 0 <= i < |s.sealed| && s.sealed[i] == [] ==> i == |s.sealed| - 1 && s.sendKey.None?)
    && s.got == s.delivered + (if s.peerSaidGoodbye then [[]] else [])
    && (s.peerSaidGoodbye ==> s.closed)
    && (forall f :: f in s.delivered ==> f != [])
  }

  lemma SealInStep(e: Env, s: End, frame: Bytes, send: Bytes, recv: Bytes)
    requires InStep(e, s, send, recv) && s.sendKey.Some?
    ensures InStep(e, SealFrame(e, s, frame), send, recv)
  {
    hide Nonce;
    NextPlace(Per(e), |s.sealed|, s.sendEpoch, s.sendCtr);
    SameReads(e, s, SealFrame(e, s, frame), recv);
    hide ReadsInStep;
    var t := SealFrame(e, s, frame);
    assert t.wire[|s.sealed|] == e.c.seal(KeyAt(e, send, |s.sealed|), NonceAt(e, |s.sealed|), frame);
  }

  lemma SameReads(e: Env, s: End, t: End, recv: Bytes)
    requires ReadsInStep(e, s, recv) && t.recvEpoch == s.recvEpoch && t.recvCtr == s.recvCtr && t.got == s.got && t.recvKey == s.recvKey
    ensures ReadsInStep(e, t, recv)
  {
  }

  lemma SameSends(e: Env, s: End, t: End, send: Bytes)
    requires SendsInStep(e, s, send) && t.sendEpoch == s.sendEpoch && t.sendCtr == s.sendCtr
    requires t.sealed == s.sealed && t.wire == s.wire && t.sendKey == s.sendKey
    ensures SendsInStep(e, t, send)
  {
  }

  lemma OpenInStep(e: Env, s: End, m: Bytes, send: Bytes, recv: Bytes)
    requires InStep(e, s, send, recv) && s.recvKey.Some?
    ensures InStep(e, Advance(e, s).(got := s.got + [m]), send, recv)
  {
    hide SendsInStep;
    SameSends(e, s, Advance(e, s).(got := s.got + [m]), send);
    NextPlace(Per(e), |s.got|, s.recvEpoch, s.recvCtr);
  }

  /** Events that open and seal nothing. */
  ghost predicate Apart(s: End, t: End) {
    && t.sealed == s.sealed && t.wire == s.wire && t.got == s.got && t.delivered == s.delivered
    && t.sendEpoch == s.sendEpoch && t.sendCtr == s.sendCtr && t.recvEpoch == s.recvEpoch && t.recvCtr == s.recvCtr
    && (t.sendKey == s.sendKey || t.sendKey.None?) && (t.recvKey == s.recvKey || t.recvKey.None?)
    && t.peerSaidGoodbye == s.peerSaidGoodbye && (s.closed ==> t.closed)
    && (forall x :: x in t.work ==> x in s.work || TaskOk(x))
  }

  lemma ApartKeeps(e: Env, s: End, t: End, send: Bytes, recv: Bytes)
    requires InStep(e, s, send, recv) && GoodbyeLast(s) && Apart(s, t)
    ensures InStep(e, t, send, recv) && GoodbyeLast(t)
  {
  }

  lemma EventsApart(e: Env, s: End, ev: Event)
    requires !ev.Working?
    ensures Apart(s, Step(e, s, ev))
  {
    hide EndLink, Apart;
    EndApart(s, true, false);
    EndApart(s, false, false);
    match ev
    case Sending(frame) => SendApart(e, s, frame);
    case Arriving(body) => WorkApart(s, Arrive(s, body), Decode(body));
    case Working(_) =>
    case Closing =>
    case Failing(defensive) => EndApart(s, false, defensive);
    case Dropped => DropApart(s);
  }

  lemma EndApart(s: End, farewell: bool, defensive: bool)
    ensures Apart(s, EndLink(s, farewell, defensive))
  {
  }

  lemma DropApart(s: End)
    ensures Apart(s, ChannelClosed(s))
  {
  }

  lemma WorkApart(s: End, t: End, task: Task)
    requires t == s || t == s.(work := s.work + [task], queuedSlices := t.queuedSlices, queuedBytes := t.queuedBytes, accepted := t.accepted)
    requires TaskOk(task)
    ensures Apart(s, t)
  {
  }

  lemma SendApart(e: Env, s: End, frame: Bytes)
    ensures Apart(s, Send(e, s, frame))
  {
    hide EndLink, Apart;
    EndApart(s, true, false);
    EndApart(s, false, false);
    if frame != [] {
      var t := Send(e, s, frame);
      if t != Close(s) && t != Abort(s, false) { WorkApart(s, t, Seal(frame)); }
    } else {
      WorkApart(s, s, Finish);
    }
  }

  lemma WorkKeeps(e: Env, s: End, wired: bool, send: Bytes, recv: Bytes)
    requires InStep(e, s, send, recv) && GoodbyeLast(s)
    ensures InStep(e, Work(e, s, wired), send, recv) && GoodbyeLast(Work(e, s, wired))
  {
    hide InStep, GoodbyeLast, SealFrame, OnRecord;
    if s.work != [] {
      var p, task := s.(work := s.work[1..]), s.work[0];
      assert Apart(s, p);
      ApartKeeps(e, s, p, send, recv);
      FirstOk(s);
      match task
      case Early(frame) => WireKeeps(e, p, frame, wired, send, recv);
      case Seal(frame) =>
        WireKeeps(e, p, frame, wired, send, recv);
        var t := if p.closed && !p.parting then p else WireRecord(e, p, frame, wired);
        ApartKeeps(e, t, Work(e, s, wired), send, recv);
      case Decode(body) => RecordKeeps(e, p, body, send, recv);
      case Finish => FinishKeeps(e, p, send, recv);
    }
  }

  lemma FirstOk(s: End)
    requires GoodbyeLast(s) && s.work != []
    ensures TaskOk(s.work[0])
  {
  }

  lemma SealGoodbye(e: Env, s: End, frame: Bytes)
    requires GoodbyeLast(s) && s.sendKey.Some? && frame != []
    ensures GoodbyeLast(SealFrame(e, s, frame))
  {
    hide Nonce;
  }

  lemma WireKeeps(e: Env, s: End, frame: Bytes, wired: bool, send: Bytes, recv: Bytes)
    requires InStep(e, s, send, recv) && GoodbyeLast(s) && frame != []
    ensures InStep(e, WireRecord(e, s, frame, wired), send, recv) && GoodbyeLast(WireRecord(e, s, frame, wired))
  {
    hide InStep, GoodbyeLast, SealFrame;
    if s.sendKey.None? {
      ApartKeeps(e, s, Abort(s, false), send, recv);
    } else {
      SealInStep(e, s, frame, send, recv);
      var t := SealFrame(e, s, frame);
      SealGoodbye(e, s, frame);
      ApartKeeps(e, t, Abort(t, false), send, recv);
    }
  }

  /** A record that opens, at the place the receiver has come to. */
  predicate Opens(e: Env, s: End, body: Bytes) {
    && s.recvKey.Some? && TAG_LEN <= |body| <= e.limits.maxFrame && s.recvEpoch < REJECT_AFTER_EPOCHS
    && e.c.open(s.recvKey.value, Nonce(s.recvEpoch, s.recvCtr), body).Some?
  }

  lemma RecordKeeps(e: Env, s: End, body: Bytes, send: Bytes, recv: Bytes)
    requires InStep(e, s, send, recv) && GoodbyeLast(s)
    ensures var t := if s.closed then s else OnRecord(e, s, body); InStep(e, t, send, recv) && GoodbyeLast(t)
  {
    hide InStep, GoodbyeLast, Nonce, EndLink;
    EndApart(s, false, true);
    EndApart(s, false, false);
    ApartKeeps(e, s, Abort(s, true), send, recv);
    ApartKeeps(e, s, Abort(s, false), send, recv);
    if !s.closed && Opens(e, s, body) { OpensKeeps(e, s, body, send, recv); }
  }

  lemma OpensGoodbye(e: Env, s: End, body: Bytes)
    requires GoodbyeLast(s) && !s.closed && Opens(e, s, body)
    ensures GoodbyeLast(OnRecord(e, s, body))
  {
    hide Nonce;
    var m := e.c.open(s.recvKey.value, Nonce(s.recvEpoch, s.recvCtr), body).value;
    var t := Advance(e, s).(got := s.got + [m]);
    assert t.sealed == s.sealed && t.sendKey == s.sendKey && t.work == s.work && t.delivered == s.delivered;
    if m == [] {
      assert Close(t.(peerSaidGoodbye := true)).work == s.work + [Finish];
    }
  }

  lemma OpensKeeps(e: Env, s: End, body: Bytes, send: Bytes, recv: Bytes)
    requires InStep(e, s, send, recv) && GoodbyeLast(s) && !s.closed && Opens(e, s, body)
    ensures InStep(e, OnRecord(e, s, body), send, recv) && GoodbyeLast(OnRecord(e, s, body))
  {
    hide SendsInStep, ReadsInStep, Nonce, GoodbyeLast;
    OpensGoodbye(e, s, body);
    var m := e.c.open(s.recvKey.value, Nonce(s.recvEpoch, s.recvCtr), body).value;
    var t := Advance(e, s).(got := s.got + [m]);
    OpenInStep(e, s, m, send, recv);
    SameSends(e, t, OnRecord(e, s, body), send);
    SameReads(e, t, OnRecord(e, s, body), recv);
  }

  lemma FinishKeeps(e: Env, s: End, send: Bytes, recv: Bytes)
    requires InStep(e, s, send, recv) && GoodbyeLast(s)
    ensures var t := Teardown(Farewell(e, s)); InStep(e, t, send, recv) && GoodbyeLast(t)
  {
    hide InStep;
    ApartKeeps(e, s, Teardown(s), send, recv);
    if s.sendKey.Some? {
      SealInStep(e, s, [], send, recv);
      TornInStep(e, SealFrame(e, s, []), send, recv);
    }
  }

  lemma TornInStep(e: Env, s: End, send: Bytes, recv: Bytes)
    requires InStep(e, s, send, recv)
    ensures InStep(e, Teardown(s), send, recv)
  {
  }

  // ── nonces ─────────────────────────────────────────────────────────────────────────

  lemma NonceParts(epoch: nat, ctr: nat)
    ensures var a := Nonce(epoch, ctr); |a| == 12 && a[..4] == Put32(epoch) && a[8..] == Put32(ctr)
  {
  }

  /** No two records of a direction share a nonce, so no key and nonce ever seal two, while the
      epochs fit the nonce's field. */
  lemma NoncesDiffer(e: Env, i: nat, j: nat)
    requires i < j && j / Per(e) < 0x1_0000_0000 && Per(e) < 0x1_0000_0000
    ensures NonceAt(e, i) != NonceAt(e, j)
  {
    hide Nonce, Per;
    var a, x, b, y := Places(Per(e), i, j);
    NoncesApart(a, x, b, y);
  }

  lemma NoncesApart(a: nat, x: nat, b: nat, y: nat)
    requires a <= b < 0x1_0000_0000 && x < 0x1_0000_0000 && y < 0x1_0000_0000 && (a == b ==> x < y)
    ensures Nonce(a, x) != Nonce(b, y)
  {
    hide Nonce, Put32;
    NonceParts(a, x);
    NonceParts(b, y);
  }

  lemma Places(per: nat, i: nat, j: nat) returns (a: nat, x: nat, b: nat, y: nat)
    requires per >= 1 && i < j
    ensures a == i / per && x == i % per && b == j / per && y == j % per
    ensures a <= b && (a == b ==> x < y) && x < per && y < per
  {
    Ordered(per, i, j);
    a, x, b, y := i / per, i % per, j / per, j % per;
  }

  lemma Ordered(per: nat, i: nat, j: nat)
    requires per >= 1 && i < j
    ensures i / per <= j / per && (i / per == j / per ==> i % per < j % per) && i % per < per && j % per < per
  {
    assert i == per * (i / per) + i % per && j == per * (j / per) + j % per;
    var d: int := j / per - i / per;
    assert per * d == per * (j / per) - per * (i / per);
    assert d <= -1 ==> per * d <= 0 - per;
  }

  /** What is still to be sealed: an end's epochs stop a little past the limit, since it is
      checked as a frame is queued and not as it is sealed. */
  function ToSeal(work: seq<Task>): nat {
    if work == [] then 0 else (if work[0].Early? || work[0].Seal? then 1 else 0) + ToSeal(work[1..])
  }

  function Queued(work: seq<Task>): nat {
    if work == [] then 0 else (if work[0].Seal? then 1 else 0) + Queued(work[1..])
  }

  lemma {:induction false} ToSealSnoc(work: seq<Task>, t: Task)
    ensures ToSeal(work + [t]) == ToSeal(work) + (if t.Early? || t.Seal? then 1 else 0)
    ensures Queued(work + [t]) == Queued(work) + (if t.Seal? then 1 else 0)
  {
    if work != [] {
      assert (work + [t])[1..] == work[1..] + [t];
      ToSealSnoc(work[1..], t);
    }
  }

  /** The queue is counted, within its bound, and no epoch is reached past the limit but by
      what was already queued. */
  ghost predicate Bounded(e: Env, s: End, early: nat) {
    && s.queuedSlices == Queued(s.work) <= e.limits.maxSlices
    && ToSeal(s.work) <= Queued(s.work) + early
    && s.sendEpoch + ToSeal(s.work) <= REJECT_AFTER_EPOCHS + e.limits.maxSlices + early
  }

  lemma EndBounded(e: Env, s: End, farewell: bool, defensive: bool, early: nat)
    requires Bounded(e, s, early)
    ensures Bounded(e, EndLink(s, farewell, defensive), early)
  {
    ToSealSnoc(s.work, Finish);
  }

  lemma EventBounded(e: Env, s: End, ev: Event, early: nat)
    requires Bounded(e, s, early) && !ev.Working?
    ensures Bounded(e, Step(e, s, ev), early)
  {
    hide EndLink;
    EndBounded(e, s, true, false, early);
    EndBounded(e, s, false, false, early);
    EndBounded(e, s, false, true, early);
    match ev
    case Sending(frame) => ToSealSnoc(s.work, Seal(frame));
    case Arriving(body) => ToSealSnoc(s.work, Decode(body));
    case Working(_) =>
    case Closing =>
    case Failing(_) =>
    case Dropped =>
  }

  /** Sealing one record moves at most one epoch on. */
  ghost predicate Moved(s: End, t: End, n: nat) {
    && t.sendEpoch <= s.sendEpoch + n && ToSeal(t.work) == ToSeal(s.work) && Queued(t.work) == Queued(s.work)
    && t.queuedSlices == s.queuedSlices
  }

  lemma EndMoved(s: End, farewell: bool, defensive: bool)
    ensures Moved(s, EndLink(s, farewell, defensive), 0)
  {
    ToSealSnoc(s.work, Finish);
  }

  lemma WireMoved(e: Env, s: End, frame: Bytes, wired: bool)
    ensures Moved(s, WireRecord(e, s, frame, wired), 1)
  {
    hide EndLink;
    EndMoved(s, false, false);
    if s.sendKey.Some? { EndMoved(SealFrame(e, s, frame), false, false); }
  }

  /** What a record that opens makes of an end. */
  lemma OnOpened(e: Env, s: End, body: Bytes)
    requires Opens(e, s, body)
    ensures var m := e.c.open(s.recvKey.value, Nonce(s.recvEpoch, s.recvCtr), body).value;
            var t := Advance(e, s).(got := s.got + [m]);
            OnRecord(e, s, body) ==
              if m == [] then EndLink(t.(peerSaidGoodbye := true), true, false)
              else t.(delivered := t.delivered + [m])
    ensures Advance(e, s) == s.(recvKey := Advance(e, s).recvKey, recvEpoch := Advance(e, s).recvEpoch,
                                recvCtr := Advance(e, s).recvCtr)
  {
    hide EndLink, Nonce;
  }

  lemma OpensMoved(e: Env, s: End, body: Bytes)
    requires Opens(e, s, body)
    ensures Moved(s, OnRecord(e, s, body), 0)
  {
    hide EndLink, Nonce, OnRecord, Advance;
    OnOpened(e, s, body);
    var m := e.c.open(s.recvKey.value, Nonce(s.recvEpoch, s.recvCtr), body).value;
    EndMoved(Advance(e, s).(got := s.got + [m], peerSaidGoodbye := true), true, false);
  }

  lemma RecordMoved(e: Env, s: End, body: Bytes)
    ensures Moved(s, OnRecord(e, s, body), 0)
  {
    hide EndLink, Nonce;
    EndMoved(s, false, true);
    EndMoved(s, false, false);
    hide Moved;
    if Opens(e, s, body) { OpensMoved(e, s, body); }
  }

  lemma WorkBounded(e: Env, s: End, wired: bool, early: nat)
    requires Bounded(e, s, early)
    ensures Bounded(e, Work(e, s, wired), early)
  {
    hide WireRecord, OnRecord, SealFrame;
    if s.work != [] {
      var p, task := s.(work := s.work[1..]), s.work[0];
      match task
      case Early(frame) => WireMoved(e, p, frame, wired);
      case Seal(frame) => WireMoved(e, p, frame, wired);
      case Decode(body) => RecordMoved(e, p, body);
      case Finish => FarewellMoved(e, p);
    }
  }

  lemma FarewellMoved(e: Env, s: End)
    ensures var t := Teardown(Farewell(e, s));
            t.sendEpoch <= Max(s.sendEpoch, REJECT_AFTER_EPOCHS) && t.work == s.work && t.queuedSlices == s.queuedSlices
            && (t.sendEpoch == s.sendEpoch || s.sendEpoch < REJECT_AFTER_EPOCHS)
            && t.sendEpoch <= s.sendEpoch + 1
  {
  }
}
