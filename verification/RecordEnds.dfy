/** One end of an authenticated link, whatever arrives at it (WASM/transport/src/ake.js:384-491,
    762-812): its keys and places in step, its goodbye last, nothing it took to send missing,
    and its epochs bounded, over every run. */
module RecordEnds {
  import opened Base
  import opened Records

  /** A link as it authenticates, with any frames queued before. */
  ghost predicate Begun(s: End, send: Bytes, recv: Bytes) {
    exists early :: s == Authenticated(send, recv, early) && forall i :: 0 <= i < |early| ==> early[i] != []
  }

  lemma StepIsWork(e: Env, s: End, ev: Event)
    requires ev.Working?
    ensures Step(e, s, ev) == Work(e, s, ev.wired)
  {
  }

  // ── nothing accepted is missing ────────────────────────────────────────────────────

  /** The frames still to be sealed, in the chain's order. */
  function Frames(work: seq<Task>): seq<Bytes> { if work == [] then [] else FrameOf(work[0]) + Frames(work[1..]) }

  function FrameOf(t: Task): seq<Bytes> { if t.Early? || t.Seal? then [t.frame] else [] }

  lemma {:induction false} FramesSnoc(work: seq<Task>, t: Task)
    ensures Frames(work + [t]) == Frames(work) + FrameOf(t)
  {
    hide FrameOf;
    if work == [] {
      assert work + [t] == [t] && [t][1..] == [];
    } else {
      assert (work + [t])[1..] == work[1..] + [t];
      FramesSnoc(work[1..], t);
    }
  }

  lemma {:induction false} FramesEarly(early: seq<Bytes>)
    ensures Frames(seq(|early|, i requires 0 <= i < |early| => Early(early[i]))) == early
  {
    if early != [] {
      var work := seq(|early|, i requires 0 <= i < |early| => Early(early[i]));
      var rest := early[1..];
      assert work[1..] == seq(|rest|, i requires 0 <= i < |rest| => Early(rest[i]));
      FramesEarly(rest);
    }
  }

  /** The teardown comes once, behind every frame. */
  ghost predicate FinishLast(work: seq<Task>) { forall i :: 0 <= i < |work| - 1 ==> !work[i].Finish? }

  /** While the link lives, or parts with a goodbye to say, what was accepted is what was sealed
      and what is still to be; and with the goodbye said, all of it was sealed. */
  ghost predicate Whole(s: End) {
    && (s.sendKey.Some? && (!s.closed || s.parting) ==> s.accepted == s.sealed + Frames(s.work))
    && (forall i :: 0 <= i < |s.sealed| && s.sealed[i] == [] ==> s.sealed == s.accepted + [[]])
    && (!s.closed ==> forall t :: t in s.work ==> !t.Finish?)
    && FinishLast(s.work)
    && (s.parting ==> s.closed)
    && (s.sendKey.None? ==> s.closed)
  }

  lemma EndWhole(s: End, farewell: bool, defensive: bool)
    requires Whole(s)
    ensures Whole(EndLink(s, farewell, defensive))
  {
    FramesSnoc(s.work, Finish);
  }

  lemma SendWhole(e: Env, s: End, frame: Bytes)
    requires Whole(s) && GoodbyeLast(s)
    ensures Whole(Send(e, s, frame))
  {
    hide EndLink;
    EndWhole(s, true, false);
    EndWhole(s, false, false);
    FramesSnoc(s.work, Seal(frame));
    assert s.sealed + Frames(s.work) + [frame] == s.sealed + (Frames(s.work) + [frame]);
  }

  lemma EventWhole(e: Env, s: End, ev: Event)
    requires Whole(s) && GoodbyeLast(s) && !ev.Working?
    ensures Whole(Step(e, s, ev))
  {
    hide EndLink, GoodbyeLast, Send;
    match ev
    case Sending(frame) => SendWhole(e, s, frame);
    case Arriving(body) => FramesSnoc(s.work, Decode(body));
    case Working(_) =>
    case Closing => EndWhole(s, true, false);
    case Failing(defensive) => EndWhole(s, false, defensive);
    case Dropped =>
  }

  /** A frame off the chain and sealed, or the link failed. */
  lemma WireWhole(e: Env, s: End, frame: Bytes, wired: bool)
    requires frame != [] && GoodbyeLast(s) && FinishLast(s.work)
    requires s.sendKey.Some? && (!s.closed || s.parting) ==> s.accepted == s.sealed + ([frame] + Frames(s.work))
    requires forall i :: 0 <= i < |s.sealed| && s.sealed[i] == [] ==> s.sealed == s.accepted + [[]]
    requires !s.closed ==> forall t :: t in s.work ==> !t.Finish?
    requires (s.parting ==> s.closed) && (s.sendKey.None? ==> s.closed)
    ensures Whole(WireRecord(e, s, frame, wired))
  {
    hide SealFrame, GoodbyeLast, FinishLast, EndLink;
    if s.sendKey.None? {
      EndWhole(s, false, false);
    } else {
      SealWhole(e, s, frame);
      EndWhole(SealFrame(e, s, frame), false, false);
    }
  }

  lemma SealWhole(e: Env, s: End, frame: Bytes)
    requires frame != [] && GoodbyeLast(s) && FinishLast(s.work) && s.sendKey.Some?
    requires !s.closed || s.parting ==> s.accepted == s.sealed + ([frame] + Frames(s.work))
    requires !s.closed ==> forall t :: t in s.work ==> !t.Finish?
    requires s.parting ==> s.closed
    ensures Whole(SealFrame(e, s, frame))
  {
    hide Nonce, Frames, FinishLast;
    var t := SealFrame(e, s, frame);
    NoGoodbyeYet(s);
    assert forall i :: 0 <= i < |t.sealed| ==> t.sealed[i] != [];
    assert s.sealed + ([frame] + Frames(s.work)) == t.sealed + Frames(t.work);
  }

  lemma NoGoodbyeYet(s: End)
    requires GoodbyeLast(s) && s.sendKey.Some?
    ensures forall i :: 0 <= i < |s.sealed| ==> s.sealed[i] != []
  {
  }

  lemma WorkWhole(e: Env, s: End, wired: bool)
    requires Whole(s) && GoodbyeLast(s)
    ensures Whole(Work(e, s, wired))
  {
    hide WireRecord, OnRecord, GoodbyeLast, FinishLast;
    if s.work != [] {
      var p, task := s.(work := s.work[1..]), s.work[0];
      Popped(s);
      match task
      case Early(frame) => WireWhole(e, p, frame, wired);
      case Seal(frame) =>
        if !(s.closed && !s.parting) { WireWhole(e, p, frame, wired); }
      case Decode(body) => if !p.closed { RecordWhole(e, p, body); }
      case Finish => FarewellWhole(e, s);
    }
  }

  lemma Popped(s: End)
    requires Whole(s) && GoodbyeLast(s) && s.work != []
    ensures var p := s.(work := s.work[1..]);
            GoodbyeLast(p) && FinishLast(p.work) && TaskOk(s.work[0]) && (s.work[0].Finish? ==> p.work == [] && s.closed)
            && (!p.closed ==> forall t :: t in p.work ==> !t.Finish?)
            && ((s.work[0].Decode? || s.work[0].Finish?) ==> Frames(p.work) == Frames(s.work))
  {
    assert s.work[0] in s.work;
    assert forall i :: 0 <= i < |s.work| - 1 ==> s.work[1..][i] == s.work[i + 1];
    assert |s.work| > 1 ==> !s.work[0].Finish?;
  }

  lemma RecordWhole(e: Env, s: End, body: Bytes)
    requires Whole(s) && !s.closed
    ensures Whole(OnRecord(e, s, body))
  {
    hide EndLink, Nonce;
    EndWhole(s, false, true);
    EndWhole(s, false, false);
    if Opens(e, s, body) {
      var m := e.c.open(s.recvKey.value, Nonce(s.recvEpoch, s.recvCtr), body).value;
      var t := Advance(e, s).(got := s.got + [m], peerSaidGoodbye := true);
      assert Whole(t);
      EndWhole(t, true, false);
    }
  }

  lemma FarewellSeals(e: Env, s: End)
    ensures var t := Farewell(e, s);
            && t.accepted == s.accepted && t.work == s.work && t.closed == s.closed
            && (t.sealed == s.sealed || (s.parting && s.sendKey.Some? && t.sealed == s.sealed + [[]]))
  {
    hide Nonce;
  }

  lemma TornWhole(t: End)
    requires t.closed && t.work == []
    requires forall i :: 0 <= i < |t.sealed| && t.sealed[i] == [] ==> t.sealed == t.accepted + [[]]
    ensures Whole(Teardown(t))
  {
  }

  lemma FarewellWhole(e: Env, s: End)
    requires Whole(s) && GoodbyeLast(s) && s.work != [] && s.work[0].Finish? && s.work[1..] == []
    ensures var p := s.(work := []); s.closed ==> Whole(Teardown(Farewell(e, p)))
  {
    hide GoodbyeLast, Farewell, Teardown;
    var p := s.(work := []);
    FarewellSeals(e, p);
    assert Frames(s.work) == [] && s.sealed + [] == s.sealed;
    if s.closed { TornWhole(Farewell(e, p)); }
  }

  lemma EndStepWhole(e: Env, s: End, ev: Event)
    requires Whole(s) && GoodbyeLast(s)
    ensures Whole(Step(e, s, ev))
  {
    hide Whole, GoodbyeLast, Work;
    if ev.Working? {
      StepIsWork(e, s, ev);
      WorkWhole(e, s, ev.wired);
    } else {
      EventWhole(e, s, ev);
    }
  }

  lemma BegunWhole(s: End, send: Bytes, recv: Bytes)
    requires Begun(s, send, recv)
    ensures Whole(s)
  {
    var early :| s == Authenticated(send, recv, early) && forall i :: 0 <= i < |early| ==> early[i] != [];
    FramesEarly(early);
  }

  // ── every run of one end ───────────────────────────────────────────────────────────

  /** All an end keeps; `early` counts the frames queued before it authenticated. */
  ghost predicate EndOk(e: Env, s: End, send: Bytes, recv: Bytes, early: nat) {
    InStep(e, s, send, recv) && GoodbyeLast(s) && Whole(s) && Bounded(e, s, early)
  }

  lemma EndStepOk(e: Env, s: End, ev: Event, send: Bytes, recv: Bytes, early: nat)
    requires EndOk(e, s, send, recv, early)
    ensures EndOk(e, Step(e, s, ev), send, recv, early)
  {
    hide InStep, GoodbyeLast, Whole, Bounded, Step, Apart;
    EndStepWhole(e, s, ev);
    if ev.Working? {
      StepIsWork(e, s, ev);
      WorkKeeps(e, s, ev.wired, send, recv);
      WorkBounded(e, s, ev.wired, early);
    } else {
      EventsApart(e, s, ev);
      ApartKeeps(e, s, Step(e, s, ev), send, recv);
      EventBounded(e, s, ev, early);
    }
  }

  lemma {:induction false} EarlyCount(early: seq<Bytes>)
    ensures var work := seq(|early|, i requires 0 <= i < |early| => Early(early[i]));
            ToSeal(work) == |early| && Queued(work) == 0
  {
    if early != [] {
      var work := seq(|early|, i requires 0 <= i < |early| => Early(early[i]));
      var rest := early[1..];
      assert work[1..] == seq(|rest|, i requires 0 <= i < |rest| => Early(rest[i]));
      EarlyCount(rest);
    }
  }

  lemma AuthenticatedOk(e: Env, send: Bytes, recv: Bytes, early: seq<Bytes>)
    requires forall i :: 0 <= i < |early| ==> early[i] != []
    ensures EndOk(e, Authenticated(send, recv, early), send, recv, |early|)
  {
    var s := Authenticated(send, recv, early);
    EarlyCount(early);
    assert Begun(s, send, recv);
    BegunWhole(s, send, recv);
  }

  lemma BegunOk(e: Env, s: End, send: Bytes, recv: Bytes)
    requires Begun(s, send, recv)
    ensures exists early :: EndOk(e, s, send, recv, early)
  {
    hide EndOk;
    var early :| s == Authenticated(send, recv, early) && forall i :: 0 <= i < |early| ==> early[i] != [];
    AuthenticatedOk(e, send, recv, early);
  }

  /** An end that authenticated with `early` frames queued, and all that happened to it since:
      anything may arrive. */
  ghost predicate EndRun(e: Env, ss: seq<End>, evs: seq<Event>, send: Bytes, recv: Bytes, early: seq<Bytes>) {
    && |ss| == |evs| + 1 && ss[0] == Authenticated(send, recv, early) && (forall i :: 0 <= i < |early| ==> early[i] != [])
    && forall i :: 0 <= i < |evs| ==> ss[i + 1] == Step(e, ss[i], evs[i])
  }

  lemma {:induction false} AlwaysEndOk(e: Env, ss: seq<End>, evs: seq<Event>, send: Bytes, recv: Bytes, early: seq<Bytes>, n: nat)
    requires EndRun(e, ss, evs, send, recv, early) && n < |ss|
    ensures EndOk(e, ss[n], send, recv, |early|)
  {
    hide EndOk, Step;
    if n == 0 {
      AuthenticatedOk(e, send, recv, early);
    } else {
      AlwaysEndOk(e, ss, evs, send, recv, early, n - 1);
      EndStepOk(e, ss[n - 1], evs[n - 1], send, recv, |early|);
    }
  }

  /** Over every run of an end, whatever arrives: its queue is counted and within its bound, and
      its epochs pass the limit by no more than it could have had queued. */
  lemma EpochsBounded(e: Env, ss: seq<End>, evs: seq<Event>, send: Bytes, recv: Bytes, early: seq<Bytes>, n: nat)
    requires EndRun(e, ss, evs, send, recv, early) && n < |ss|
    ensures ss[n].queuedSlices == Queued(ss[n].work) <= e.limits.maxSlices
    ensures ss[n].sendEpoch <= REJECT_AFTER_EPOCHS + e.limits.maxSlices + |early|
  {
    AlwaysEndOk(e, ss, evs, send, recv, early, n);
  }

  /** Over every run of an end, whatever arrives: no two records it sealed share a nonce, so none
      shares key and nonce. */
  lemma NoNonceTwice(e: Env, ss: seq<End>, evs: seq<Event>, send: Bytes, recv: Bytes, early: seq<Bytes>, n: nat, i: nat, j: nat)
    requires EndRun(e, ss, evs, send, recv, early) && n < |ss| && i < j < |ss[n].sealed|
    requires REJECT_AFTER_EPOCHS + e.limits.maxSlices + |early| < 0x1_0000_0000 && Per(e) < 0x1_0000_0000
    ensures NonceAt(e, i) != NonceAt(e, j) && |ss[n].wire| == |ss[n].sealed|
    ensures ss[n].wire[i] == e.c.seal(KeyAt(e, send, i), NonceAt(e, i), ss[n].sealed[i])
    ensures ss[n].wire[j] == e.c.seal(KeyAt(e, send, j), NonceAt(e, j), ss[n].sealed[j])
  {
    hide Nonce, GoodbyeLast, Whole;
    AlwaysEndOk(e, ss, evs, send, recv, early, n);
    Ordered(Per(e), j, |ss[n].sealed|);
    NoncesDiffer(e, i, j);
  }

  /** Over every run of an end, whatever arrives: while it lives or parts, what it took to send is
      what it sealed and what its chain still holds; with its goodbye said, all was sealed. */
  lemma AlwaysWhole(e: Env, ss: seq<End>, evs: seq<Event>, send: Bytes, recv: Bytes, early: seq<Bytes>, n: nat)
    requires EndRun(e, ss, evs, send, recv, early) && n < |ss|
    ensures var s := ss[n];
            && (s.sendKey.Some? && (!s.closed || s.parting) ==> s.accepted == s.sealed + Frames(s.work))
            && (forall i :: 0 <= i < |s.sealed| && s.sealed[i] == [] ==> s.sealed == s.accepted + [[]])
  {
    AlwaysEndOk(e, ss, evs, send, recv, early, n);
  }

  // ── what an end took to send ───────────────────────────────────────────────────────

  /** One event after another. */
  function Trace(e: Env, s: End, evs: seq<Event>): End
    decreases |evs|
  {
    if evs == [] then s else Trace(e, Step(e, s, evs[0]), evs[1..])
  }

  /** Whether a frame handed to the link is taken. */
  predicate Takes(e: Env, s: End, frame: Bytes) {
    && !s.closed && frame != [] && |frame| <= e.limits.maxFrame - TAG_LEN && s.sendEpoch < REJECT_AFTER_EPOCHS
    && s.queuedSlices < e.limits.maxSlices && |frame| <= e.limits.maxQueueBytes - s.queuedBytes
  }

  /** The frames taken as events go by. */
  function Taken(e: Env, s: End, evs: seq<Event>): seq<Bytes>
    decreases |evs|
  {
    if evs == [] then []
    else (if evs[0].Sending? && Takes(e, s, evs[0].frame) then [evs[0].frame] else []) + Taken(e, Step(e, s, evs[0]), evs[1..])
  }

  lemma EndTakesNothing(s: End, farewell: bool, defensive: bool)
    ensures EndLink(s, farewell, defensive).accepted == s.accepted
  {
  }

  lemma StepTakes(e: Env, s: End, ev: Event)
    ensures Step(e, s, ev).accepted == s.accepted + (if ev.Sending? && Takes(e, s, ev.frame) then [ev.frame] else [])
  {
    hide EndLink, Nonce;
    EndTakesNothing(s, true, false);
    EndTakesNothing(s, false, false);
    match ev
    case Working(wired) => WorkTakesNothing(e, s, wired);
    case Failing(defensive) => EndTakesNothing(s, false, defensive);
    case _ =>
  }

  lemma WorkTakesNothing(e: Env, s: End, wired: bool)
    ensures Work(e, s, wired).accepted == s.accepted
  {
    hide EndLink, Nonce;
    if s.work != [] {
      var p := s.(work := s.work[1..]);
      EndTakesNothing(p, false, false);
      EndTakesNothing(p, false, true);
      match s.work[0]
      case Early(frame) => WireTakesNothing(e, p, frame, wired);
      case Seal(frame) => WireTakesNothing(e, p, frame, wired);
      case Decode(body) => if Opens(e, p, body) { OpensTakesNothing(e, p, body); }
      case Finish =>
    }
  }

  lemma WireTakesNothing(e: Env, s: End, frame: Bytes, wired: bool)
    ensures WireRecord(e, s, frame, wired).accepted == s.accepted
  {
    hide EndLink, Nonce;
    EndTakesNothing(s, false, false);
    if s.sendKey.Some? { EndTakesNothing(SealFrame(e, s, frame), false, false); }
  }

  lemma OpensTakesNothing(e: Env, s: End, body: Bytes)
    requires Opens(e, s, body)
    ensures OnRecord(e, s, body).accepted == s.accepted
  {
    hide EndLink, Nonce;
    var m := e.c.open(s.recvKey.value, Nonce(s.recvEpoch, s.recvCtr), body).value;
    EndTakesNothing(Advance(e, s).(got := s.got + [m], peerSaidGoodbye := true), true, false);
  }

  /** `accepted` is what it says: nothing is taken but by a send. */
  lemma {:induction false} TraceTakes(e: Env, s: End, evs: seq<Event>)
    ensures Trace(e, s, evs).accepted == s.accepted + Taken(e, s, evs)
    decreases |evs|
  {
    hide Step, Takes;
    if evs != [] {
      StepTakes(e, s, evs[0]);
      TraceTakes(e, Step(e, s, evs[0]), evs[1..]);
    }
  }

  lemma {:induction false} TraceOk(e: Env, s: End, evs: seq<Event>, send: Bytes, recv: Bytes, early: nat)
    requires EndOk(e, s, send, recv, early)
    ensures EndOk(e, Trace(e, s, evs), send, recv, early)
    decreases |evs|
  {
    hide EndOk, Step;
    if evs != [] {
      EndStepOk(e, s, evs[0], send, recv, early);
      TraceOk(e, Step(e, s, evs[0]), evs[1..], send, recv, early);
    }
  }

  lemma {:induction false} TraceSnoc(e: Env, s: End, evs: seq<Event>, ev: Event)
    ensures Trace(e, s, evs + [ev]) == Step(e, Trace(e, s, evs), ev)
    decreases |evs|
  {
    hide Step;
    if evs == [] {
      assert evs + [ev] == [ev] && [ev][1..] == [];
    } else {
      assert (evs + [ev])[1..] == evs[1..] + [ev];
      TraceSnoc(e, Step(e, s, evs[0]), evs[1..], ev);
    }
  }

  // ── authenticating with frames queued ──────────────────────────────────────────────

  /** What may be done to a link as it is announced authenticated: frames sent on it, its close
      where a tie-break loses, its failure where it may not be held. */
  predicate Asking(ev: Event) { ev.Sending? || ev.Closing? || ev.Failing? }

  /** Whether all that leaves the link open, which its queue has no say in. */
  predicate LeftOpen(e: Env, send: Bytes, recv: Bytes, asks: seq<Event>) {
    !Trace(e, Authenticated(send, recv, []), asks).closed
  }

  /** The frames queued that the link keeps: all of them if it is left open, else none. */
  function Kept(e: Env, send: Bytes, recv: Bytes, queued: seq<Bytes>, asks: seq<Event>): seq<Bytes> {
    if LeftOpen(e, send, recv, asks) then queued else []
  }

  /** The link once announced: what it keeps of its queue goes first. */
  function Welcomed(e: Env, send: Bytes, recv: Bytes, queued: seq<Bytes>, asks: seq<Event>): End {
    Trace(e, Authenticated(send, recv, Kept(e, send, recv, queued, asks)), asks)
  }

  function Earlies(frames: seq<Bytes>): seq<Task> { seq(|frames|, i requires 0 <= i < |frames| => Early(frames[i])) }

  /** Frames put in front of all an end has to do. */
  function Fronted(s: End, frames: seq<Bytes>): End {
    s.(work := Earlies(frames) + s.work, accepted := frames + s.accepted)
  }

  lemma AskFronted(e: Env, s: End, frames: seq<Bytes>, ev: Event)
    requires Asking(ev)
    ensures Step(e, Fronted(s, frames), ev) == Fronted(Step(e, s, ev), frames)
  {
    FrontedEnd(s, frames, true, false);
    FrontedEnd(s, frames, false, false);
    FrontedEnd(s, frames, false, true);
    hide EndLink;
    if ev.Sending? {
      assert Earlies(frames) + s.work + [Seal(ev.frame)] == Earlies(frames) + (s.work + [Seal(ev.frame)]);
      assert frames + s.accepted + [ev.frame] == frames + (s.accepted + [ev.frame]);
    }
  }

  lemma FrontedEnd(s: End, frames: seq<Bytes>, farewell: bool, defensive: bool)
    ensures EndLink(Fronted(s, frames), farewell, defensive) == Fronted(EndLink(s, farewell, defensive), frames)
  {
    assert Earlies(frames) + s.work + [Finish] == Earlies(frames) + (s.work + [Finish]);
  }

  lemma {:induction false} AsksFronted(e: Env, s: End, frames: seq<Bytes>, asks: seq<Event>)
    requires forall ev :: ev in asks ==> Asking(ev)
    ensures Trace(e, Fronted(s, frames), asks) == Fronted(Trace(e, s, asks), frames)
    decreases |asks|
  {
    hide Step, Fronted;
    if asks != [] {
      AskFronted(e, s, frames, asks[0]);
      AsksFronted(e, Step(e, s, asks[0]), frames, asks[1..]);
    }
  }

  /** Putting the queue in front once the link is known to stay open comes to the same. */
  lemma WelcomedFronted(e: Env, send: Bytes, recv: Bytes, queued: seq<Bytes>, asks: seq<Event>)
    requires forall ev :: ev in asks ==> Asking(ev)
    ensures var bare := Trace(e, Authenticated(send, recv, []), asks);
            && Welcomed(e, send, recv, queued, asks) == Fronted(bare, Kept(e, send, recv, queued, asks))
            && (Welcomed(e, send, recv, queued, asks).closed <==> !LeftOpen(e, send, recv, asks))
  {
    hide Trace;
    var kept, none := Kept(e, send, recv, queued, asks), Authenticated(send, recv, []);
    assert Fronted(none, kept) == Authenticated(send, recv, kept);
    AsksFronted(e, none, kept, asks);
  }

  lemma WelcomedOk(e: Env, send: Bytes, recv: Bytes, queued: seq<Bytes>, asks: seq<Event>)
    requires forall i :: 0 <= i < |queued| ==> queued[i] != []
    ensures EndOk(e, Welcomed(e, send, recv, queued, asks), send, recv, |Kept(e, send, recv, queued, asks)|)
  {
    hide EndOk, Trace;
    var kept := Kept(e, send, recv, queued, asks);
    AuthenticatedOk(e, send, recv, kept);
    TraceOk(e, Authenticated(send, recv, kept), asks, send, recv, |kept|);
  }
}
