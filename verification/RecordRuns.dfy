/** Two ends of an authenticated link over a network that may cut, delay, drop, repeat, reorder or
    make up records (WASM/transport/src/ake.js): in every run each end delivers a prefix of
    what the other sealed, and all of it when the link ended clean. */
module RecordRuns {
  import opened Base
  import opened Records
  import opened RecordEnds

  datatype Pair = Pair(a: End, b: End)
  /** An event at one end. */
  datatype Act = Act(atA: bool, ev: Event)

  function Apply(e: Env, p: Pair, act: Act): Pair {
    if act.atA then p.(a := Step(e, p.a, act.ev)) else p.(b := Step(e, p.b, act.ev))
  }

  /** The cipher's integrity at one place: what opens there was sealed there by the peer. */
  ghost predicate GenuineAt(e: Env, key: Bytes, peer: End, body: Bytes, i: nat) {
    e.c.open(KeyAt(e, key, i), NonceAt(e, i), body).Some? ==> i < |peer.wire| && body == peer.wire[i]
  }

  /** And at all the places a receiver comes to, which its epochs bound. */
  ghost predicate Genuine(e: Env, key: Bytes, peer: End, body: Bytes) {
    forall i: nat :: i / Per(e) < REJECT_AFTER_EPOCHS ==> GenuineAt(e, key, peer, body, i)
  }

  ghost predicate Possible(e: Env, p: Pair, ab: Bytes, ba: Bytes, act: Act) {
    act.ev.Arriving? ==> if act.atA then Genuine(e, ba, p.b, act.ev.body) else Genuine(e, ab, p.a, act.ev.body)
  }

  ghost predicate Run(e: Env, ps: seq<Pair>, acts: seq<Act>, ab: Bytes, ba: Bytes) {
    && |ps| == |acts| + 1 && Begun(ps[0].a, ab, ba) && Begun(ps[0].b, ba, ab)
    && forall i :: 0 <= i < |acts| ==> Possible(e, ps[i], ab, ba, acts[i]) && ps[i + 1] == Apply(e, ps[i], acts[i])
  }

  // ── one direction ──────────────────────────────────────────────────────────────────

  /** What `to` has opened of what `from` sealed, and what it has yet to look at. */
  ghost predicate Direction(e: Env, from: End, to: End, key: Bytes) {
    to.got <= from.sealed && forall t :: t in to.work && t.Decode? ==> Genuine(e, key, from, t.body)
  }

  ghost predicate Linked(e: Env, p: Pair, ab: Bytes, ba: Bytes) {
    && InStep(e, p.a, ab, ba) && InStep(e, p.b, ba, ab) && GoodbyeLast(p.a) && GoodbyeLast(p.b)
    && Direction(e, p.a, p.b, ab) && Direction(e, p.b, p.a, ba)
  }

  lemma BegunLinked(e: Env, p: Pair, ab: Bytes, ba: Bytes)
    requires Begun(p.a, ab, ba) && Begun(p.b, ba, ab)
    ensures Linked(e, p, ab, ba)
  {
  }

  /** The receiver only opens the record at its own place, so it gets what was sealed there. */
  lemma OpensNext(e: Env, from: End, to: End, body: Bytes, recv: Bytes)
    requires Lawful(e.c) && SendsInStep(e, from, recv) && ReadsInStep(e, to, recv)
    requires to.got <= from.sealed && GenuineAt(e, recv, from, body, |to.got|) && Opens(e, to, body)
    ensures |to.got| < |from.sealed|
    ensures e.c.open(to.recvKey.value, Nonce(to.recvEpoch, to.recvCtr), body) == Some(from.sealed[|to.got|])
  {
    var n := |to.got|;
    assert to.recvKey.value == KeyAt(e, recv, n) && Nonce(to.recvEpoch, to.recvCtr) == NonceAt(e, n);
    assert body == from.wire[n];
  }

  lemma AtOwnPlace(e: Env, from: End, to: End, body: Bytes, recv: Bytes)
    requires ReadsInStep(e, to, recv) && Genuine(e, recv, from, body) && Opens(e, to, body)
    ensures GenuineAt(e, recv, from, body, |to.got|)
  {
  }

  ghost predicate Grows(s: End, t: End) {
    && s.sealed <= t.sealed && s.wire <= t.wire
    && forall x :: x in t.work && x.Decode? ==> x in s.work
  }

  lemma GenuineStays(e: Env, key: Bytes, s: End, t: End, body: Bytes)
    requires Genuine(e, key, s, body) && s.wire <= t.wire
    ensures Genuine(e, key, t, body)
  {
    forall i: nat | i / Per(e) < REJECT_AFTER_EPOCHS ensures GenuineAt(e, key, t, body, i) {
      assert GenuineAt(e, key, s, body, i);
    }
  }

  lemma EndGrows(s: End, farewell: bool, defensive: bool)
    ensures Grows(s, EndLink(s, farewell, defensive)) && EndLink(s, farewell, defensive).got == s.got
  {
  }

  lemma SealGrows(e: Env, s: End, frame: Bytes)
    requires s.sendKey.Some?
    ensures Grows(s, SealFrame(e, s, frame)) && SealFrame(e, s, frame).got == s.got
  {
    hide Nonce;
  }

  lemma GrowsOn(s: End, t: End, u: End)
    requires Grows(s, t) && Grows(t, u)
    ensures Grows(s, u)
  {
  }

  lemma WireGrows(e: Env, s: End, frame: Bytes, wired: bool)
    ensures Grows(s, WireRecord(e, s, frame, wired)) && WireRecord(e, s, frame, wired).got == s.got
  {
    hide EndLink, Nonce, Grows, SealFrame;
    EndGrows(s, false, false);
    if s.sendKey.Some? {
      SealGrows(e, s, frame);
      EndGrows(SealFrame(e, s, frame), false, false);
      GrowsOn(s, SealFrame(e, s, frame), Abort(SealFrame(e, s, frame), false));
    }
  }

  lemma RecordGrows(e: Env, s: End, body: Bytes)
    ensures var t := OnRecord(e, s, body);
            Grows(s, t) && (if Opens(e, s, body)
                            then t.got == s.got + [e.c.open(s.recvKey.value, Nonce(s.recvEpoch, s.recvCtr), body).value]
                            else t.got == s.got)
  {
    hide EndLink, Nonce;
    hide Grows;
    EndGrows(s, false, true);
    EndGrows(s, false, false);
    if Opens(e, s, body) { OpensGrows(e, s, body); }
  }

  lemma OpensGrows(e: Env, s: End, body: Bytes)
    requires Opens(e, s, body)
    ensures var t := OnRecord(e, s, body);
            Grows(s, t) && t.got == s.got + [e.c.open(s.recvKey.value, Nonce(s.recvEpoch, s.recvCtr), body).value]
  {
    hide EndLink, Nonce, OnRecord, Advance;
    OnOpened(e, s, body);
    var m := e.c.open(s.recvKey.value, Nonce(s.recvEpoch, s.recvCtr), body).value;
    EndGrows(Advance(e, s).(got := s.got + [m], peerSaidGoodbye := true), true, false);
  }

  /** One step of an end's work chain: the other's records only grow, and what it opens itself
      is the next of them. */
  lemma WorkDirection(e: Env, from: End, to: End, wired: bool, send: Bytes, recv: Bytes)
    requires Lawful(e.c) && InStep(e, to, send, recv) && InStep(e, from, recv, send) && Direction(e, from, to, recv)
    ensures Direction(e, from, Work(e, to, wired), recv) && Grows(to, Work(e, to, wired))
  {
    hide WireRecord, OnRecord, Genuine, InStep, Nonce, SealFrame;
    if to.work != [] {
      var p, task := to.(work := to.work[1..]), to.work[0];
      match task
      case Early(frame) => WireGrows(e, p, frame, wired);
      case Seal(frame) => WireGrows(e, p, frame, wired);
      case Decode(body) => DecodeDirection(e, from, to, wired, send, recv);
      case Finish => FinishGrows(e, p);
    }
  }

  lemma FinishGrows(e: Env, s: End)
    ensures var t := Teardown(Farewell(e, s)); Grows(s, t) && t.got == s.got
  {
  }

  lemma DecodeDirection(e: Env, from: End, to: End, wired: bool, send: Bytes, recv: Bytes)
    requires Lawful(e.c) && InStep(e, to, send, recv) && InStep(e, from, recv, send) && Direction(e, from, to, recv)
    requires to.work != [] && to.work[0].Decode?
    ensures Direction(e, from, Work(e, to, wired), recv) && Grows(to, Work(e, to, wired))
  {
    hide OnRecord, Genuine, Nonce, SendsInStep, ReadsInStep;
    var p, body := to.(work := to.work[1..]), to.work[0].body;
    assert to.work[0] in to.work;
    SameReads(e, to, p, recv);
    RecordGrows(e, p, body);
    if Opens(e, p, body) { AtOwnPlace(e, from, p, body, recv); OpensNext(e, from, p, body, recv); }
  }

  lemma EventDirection(e: Env, from: End, to: End, ev: Event, recv: Bytes)
    requires Direction(e, from, to, recv) && !ev.Working? && (ev.Arriving? ==> Genuine(e, recv, from, ev.body))
    ensures Direction(e, from, Step(e, to, ev), recv)
    ensures to.sealed == Step(e, to, ev).sealed && to.wire == Step(e, to, ev).wire
  {
    hide Genuine;
  }

  lemma SenderMoves(e: Env, from: End, from': End, to: End, key: Bytes)
    requires Direction(e, from, to, key) && from.sealed <= from'.sealed && from.wire <= from'.wire
    ensures Direction(e, from', to, key)
  {
    forall t | t in to.work && t.Decode? ensures Genuine(e, key, from', t.body) { GenuineStays(e, key, from, from', t.body); }
  }

  lemma StepLinked(e: Env, s: End, peer: End, ev: Event, send: Bytes, recv: Bytes)
    requires Lawful(e.c) && InStep(e, s, send, recv) && InStep(e, peer, recv, send) && GoodbyeLast(s)
    requires Direction(e, peer, s, recv) && Direction(e, s, peer, send)
    requires ev.Arriving? ==> Genuine(e, recv, peer, ev.body)
    ensures var t := Step(e, s, ev);
            InStep(e, t, send, recv) && GoodbyeLast(t) && Direction(e, peer, t, recv) && Direction(e, t, peer, send)
  {
    hide InStep, GoodbyeLast, Genuine, Direction, Apart;
    var t := Step(e, s, ev);
    if ev.Working? {
      WorkKeeps(e, s, ev.wired, send, recv);
      WorkDirection(e, peer, s, ev.wired, send, recv);
    } else {
      EventsApart(e, s, ev);
      ApartKeeps(e, s, t, send, recv);
      EventDirection(e, peer, s, ev, recv);
    }
    SenderMoves(e, s, t, peer, send);
  }

  lemma {:induction false} AlwaysLinked(e: Env, ps: seq<Pair>, acts: seq<Act>, ab: Bytes, ba: Bytes, n: nat)
    requires Lawful(e.c) && Run(e, ps, acts, ab, ba) && n < |ps|
    ensures Linked(e, ps[n], ab, ba)
  {
    hide InStep, GoodbyeLast, Genuine, Direction, Step;
    if n == 0 {
      BegunLinked(e, ps[0], ab, ba);
    } else {
      AlwaysLinked(e, ps, acts, ab, ba, n - 1);
      var p, act := ps[n - 1], acts[n - 1];
      if act.atA { StepLinked(e, p.a, p.b, act.ev, ab, ba); } else { StepLinked(e, p.b, p.a, act.ev, ba, ab); }
    }
  }

  // ── what every run keeps ───────────────────────────────────────────────────────────

  /** The frames an end passes on are a prefix of those the other sealed; it stands at the
      place, with the key, of the next record it may open. */
  lemma DeliveredIsAPrefix(e: Env, ps: seq<Pair>, acts: seq<Act>, ab: Bytes, ba: Bytes, n: nat)
    requires Lawful(e.c) && Run(e, ps, acts, ab, ba) && n < |ps|
    ensures var p := ps[n];
            && p.b.delivered <= p.a.sealed && p.a.delivered <= p.b.sealed
            && (p.b.recvKey.Some? ==> p.b.recvKey.value == KeyAt(e, ab, |p.b.got|))
            && (p.a.recvKey.Some? ==> p.a.recvKey.value == KeyAt(e, ba, |p.a.got|))
    ensures var p := ps[n];
            |p.a.sealed| == |p.b.got| ==>
              p.a.sendEpoch == p.b.recvEpoch && p.a.sendCtr == p.b.recvCtr
              && (p.a.sendKey.Some? && p.b.recvKey.Some? ==> p.a.sendKey == p.b.recvKey)
  {
    AlwaysLinked(e, ps, acts, ab, ba, n);
  }

  /** How an authenticated link ended, as its own end tells it. */
  datatype Reason = Running | Clean | Aborted | Local | Truncated

  function CloseReason(s: End): Reason {
    if !s.closed then Running
    else if s.peerSaidGoodbye then Clean
    else if s.aborted then Aborted
    else if s.closedLocally then Local
    else Truncated
  }

  /** A clean end: everything the other end ever sealed was passed on, its goodbye last. */
  lemma CleanMeansComplete(e: Env, ps: seq<Pair>, acts: seq<Act>, ab: Bytes, ba: Bytes, n: nat)
    requires Lawful(e.c) && Run(e, ps, acts, ab, ba) && n < |ps|
    ensures var p := ps[n];
            && (CloseReason(p.b).Clean? <==> p.a.sealed == p.b.delivered + [[]] && p.b.got == p.a.sealed)
            && (CloseReason(p.a).Clean? <==> p.b.sealed == p.a.delivered + [[]] && p.a.got == p.b.sealed)
  {
    AlwaysLinked(e, ps, acts, ab, ba, n);
    CleanIff(ps[n].a, ps[n].b);
    CleanIff(ps[n].b, ps[n].a);
  }

  lemma CleanIff(from: End, to: End)
    requires GoodbyeLast(from) && GoodbyeLast(to) && to.got <= from.sealed
    ensures CloseReason(to).Clean? <==> from.sealed == to.delivered + [[]] && to.got == from.sealed
  {
    var last := |to.got| - 1;
    if to.peerSaidGoodbye {
      assert from.sealed[last] == to.got[last] == [];
      assert from.sealed == to.got;
    }
  }

  /** The next record of an open link is never refused, whatever has happened before. */
  lemma NextRecordOpens(e: Env, ps: seq<Pair>, acts: seq<Act>, ab: Bytes, ba: Bytes, n: nat)
    requires Lawful(e.c) && Run(e, ps, acts, ab, ba) && n < |ps|
    requires var p := ps[n];
             && |p.b.got| < |p.a.sealed| == |p.a.wire| && p.b.recvKey.Some? && p.b.recvEpoch < REJECT_AFTER_EPOCHS
             && TAG_LEN <= |p.a.wire[|p.b.got|]| <= e.limits.maxFrame
    ensures var p := ps[n];
            var t := OnRecord(e, p.b, p.a.wire[|p.b.got|]);
            t.got == p.b.got + [p.a.sealed[|p.b.got|]] && (t.closed ==> p.b.closed || t.peerSaidGoodbye)
  {
    hide Nonce;
    AlwaysLinked(e, ps, acts, ab, ba, n);
    var a, b := ps[n].a, ps[n].b;
    var i := |b.got|;
    assert a.wire[i] == e.c.seal(KeyAt(e, ab, i), NonceAt(e, i), a.sealed[i]);
  }

  // ── nothing accepted is missing ────────────────────────────────────────────────────────

  lemma {:induction false} EndsWhole(e: Env, ps: seq<Pair>, acts: seq<Act>, ab: Bytes, ba: Bytes, n: nat)
    requires Run(e, ps, acts, ab, ba) && n < |ps|
    ensures exists early :: EndOk(e, ps[n].a, ab, ba, early)
    ensures exists early :: EndOk(e, ps[n].b, ba, ab, early)
  {
    hide EndOk, Step, Possible, Begun;
    if n == 0 {
      BegunOk(e, ps[0].a, ab, ba);
      BegunOk(e, ps[0].b, ba, ab);
    } else {
      EndsWhole(e, ps, acts, ab, ba, n - 1);
      var p, act := ps[n - 1], acts[n - 1];
      var ea :| EndOk(e, p.a, ab, ba, ea);
      var eb :| EndOk(e, p.b, ba, ab, eb);
      EndStepOk(e, p.a, act.ev, ab, ba, ea);
      EndStepOk(e, p.b, act.ev, ba, ab, eb);
      assert ps[n] == Apply(e, p, act);
      assert EndOk(e, ps[n].a, ab, ba, ea) && EndOk(e, ps[n].b, ba, ab, eb);
    }
  }

  /** From end to end: a link that ended clean passed on every frame the other end's record layer
      ever took, in order. */
  lemma CleanMeansNothingMissing(e: Env, ps: seq<Pair>, acts: seq<Act>, ab: Bytes, ba: Bytes, n: nat)
    requires Lawful(e.c) && Run(e, ps, acts, ab, ba) && n < |ps|
    ensures CloseReason(ps[n].b).Clean? ==> ps[n].b.delivered == ps[n].a.accepted
    ensures CloseReason(ps[n].a).Clean? ==> ps[n].a.delivered == ps[n].b.accepted
  {
    hide InStep, GoodbyeLast, Direction, FinishLast, Bounded;
    CleanMeansComplete(e, ps, acts, ab, ba, n);
    EndsWhole(e, ps, acts, ab, ba, n);
    SameButLast(ps[n].a, ps[n].b.delivered);
    SameButLast(ps[n].b, ps[n].a.delivered);
  }

  /** The events at one end. */
  function EventsAt(acts: seq<Act>, atA: bool): seq<Event> {
    if acts == [] then []
    else EventsAt(acts[..|acts| - 1], atA) + (if acts[|acts| - 1].atA == atA then [acts[|acts| - 1].ev] else [])
  }

  lemma EventsSnoc(acts: seq<Act>, n: nat, atA: bool)
    requires 0 < n <= |acts|
    ensures var evs, act := EventsAt(acts[..n - 1], atA), acts[n - 1];
            EventsAt(acts[..n], atA) == if act.atA == atA then evs + [act.ev] else evs
  {
    assert acts[..n][..n - 1] == acts[..n - 1] && acts[..n][n - 1] == acts[n - 1];
    assert EventsAt(acts[..n - 1], atA) + [] == EventsAt(acts[..n - 1], atA);
  }

  function EndAt(p: Pair, atA: bool): End { if atA then p.a else p.b }

  lemma {:induction false} EndsTraced(e: Env, ps: seq<Pair>, acts: seq<Act>, ab: Bytes, ba: Bytes, n: nat, atA: bool)
    requires Run(e, ps, acts, ab, ba) && n < |ps|
    ensures EndAt(ps[n], atA) == Trace(e, EndAt(ps[0], atA), EventsAt(acts[..n], atA))
  {
    hide Step, Possible, EventsAt;
    if n == 0 {
      assert acts[..0] == [];
      NoEvents(atA);
    } else {
      EndsTraced(e, ps, acts, ab, ba, n - 1, atA);
      EventsSnoc(acts, n, atA);
      TraceSnoc(e, EndAt(ps[0], atA), EventsAt(acts[..n - 1], atA), acts[n - 1].ev);
      assert ps[n] == Apply(e, ps[n - 1], acts[n - 1]);
    }
  }

  lemma NoEvents(atA: bool)
    ensures EventsAt([], atA) == []
  {
  }

  /** In full: a link that ended clean passed on just the frames the other end still had queued
      when it was left open on authenticating, none if it was not, and then every frame that end
      took after that. */
  lemma CleanMeansKeptAndTaken(e: Env, ps: seq<Pair>, acts: seq<Act>, ab: Bytes, ba: Bytes, n: nat,
                               queuedA: seq<Bytes>, asksA: seq<Event>, queuedB: seq<Bytes>, asksB: seq<Event>)
    requires Lawful(e.c) && Run(e, ps, acts, ab, ba) && n < |ps|
    requires ps[0].a == Authenticated(ab, ba, Kept(e, ab, ba, queuedA, asksA))
    requires ps[0].b == Authenticated(ba, ab, Kept(e, ba, ab, queuedB, asksB))
    ensures CloseReason(ps[n].b).Clean? ==>
              ps[n].b.delivered ==
                (if LeftOpen(e, ab, ba, asksA) then queuedA else []) + Taken(e, ps[0].a, EventsAt(acts[..n], true))
    ensures CloseReason(ps[n].a).Clean? ==>
              ps[n].a.delivered ==
                (if LeftOpen(e, ba, ab, asksB) then queuedB else []) + Taken(e, ps[0].b, EventsAt(acts[..n], false))
  {
    hide Trace, Taken, LeftOpen, EventsAt;
    CleanMeansNothingMissing(e, ps, acts, ab, ba, n);
    EndsTraced(e, ps, acts, ab, ba, n, true);
    EndsTraced(e, ps, acts, ab, ba, n, false);
    TraceTakes(e, ps[0].a, EventsAt(acts[..n], true));
    TraceTakes(e, ps[0].b, EventsAt(acts[..n], false));
  }

  lemma SameButLast(s: End, delivered: seq<Bytes>)
    requires Whole(s)
    ensures s.sealed == delivered + [[]] ==> delivered == s.accepted
  {
    if s.sealed == delivered + [[]] {
      assert s.sealed[|delivered|] == [];
      assert s.sealed[..|delivered|] == delivered && (s.accepted + [[]])[..|s.accepted|] == s.accepted;
    }
  }

  // ── that such runs exist ───────────────────────────────────────────────────────────

  /** A cipher of the real overhead that tells nonces apart and hides nothing. */
  function Tagging(): Suite {
    Suite((k: Bytes, n: Bytes, m: Bytes) => n + [0, 0, 0, 0] + m,
          (k: Bytes, n: Bytes, b: Bytes) => if |b| >= |n| + 4 && b[..|n|] == n then Some(b[|n| + 4..]) else None,
          (k: Bytes) => k)
  }

  /** Under it every record an end has sealed is genuine, though its keys all repeat: the
      hypothesis on arrivals asks of a cipher only what distinct nonces can give. */
  lemma HonestRecordsAreGenuine(e: Env, s: End, key: Bytes, i: nat)
    requires e.c == Tagging() && SendsInStep(e, s, key) && Per(e) < 0x1_0000_0000
    requires i < |s.wire| && i / Per(e) < 0x1_0000_0000
    ensures Lawful(e.c) && Genuine(e, key, s, s.wire[i])
  {
    hide Nonce, Per;
    TaggingLawful();
    forall j: nat | j / Per(e) < REJECT_AFTER_EPOCHS ensures GenuineAt(e, key, s, s.wire[i], j) {
      NonceParts(i / Per(e), i % Per(e));
      NonceParts(j / Per(e), j % Per(e));
      assert s.wire[i] == NonceAt(e, i) + [0, 0, 0, 0] + s.sealed[i];
      assert s.wire[i][..12] == NonceAt(e, i);
      if j < i { NoncesDiffer(e, j, i); }
      if i < j { NoncesDiffer(e, i, j); }
    }
  }

  lemma TaggingLawful()
    ensures Lawful(Tagging())
  {
    forall k: Bytes, n: Bytes, m: Bytes ensures Tagging().open(k, n, Tagging().seal(k, n, m)) == Some(m) {
      var b := n + [0, 0, 0, 0] + m;
      assert b[..|n|] == n && b[|n| + 4..] == m;
    }
  }
}
