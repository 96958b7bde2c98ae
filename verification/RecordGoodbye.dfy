/** How a link ends (WASM/transport/src/ake.js:425-491): a deliberate close seals everything taken
    and then the goodbye, exactly while the epochs last, and the peer that reads that ends clean; a
    failure never says goodbye. */
module RecordGoodbye {
  import opened Base
  import opened Records
  import opened RecordEnds
  import opened RecordRuns

  // ── a deliberate close ───────────────────────────────────────────────────────────────

  /** The last record a deliberate close seals: the goodbye, if what came before it left the epochs
      not used up. */
  function LastWord(e: Env, s: End): seq<Bytes> { if |s.accepted| / Per(e) < 0x1_0000 then [[]] else [] }

  /** Closed deliberately: parting, with all taken sealed or on the chain and the teardown behind it;
      or torn down, all taken sealed and the last word said. */
  ghost predicate Departing(e: Env, s: End) {
    && s.closed
    && (if s.sendKey.Some? then
          s.parting && s.accepted == s.sealed + Frames(s.work) && s.work != [] && s.work[|s.work| - 1].Finish? && FinishLast(s.work)
        else s.work == [] && s.sealed == s.accepted + LastWord(e, s))
  }

  /** Nothing that undoes a close: no failure, and a channel that takes every record. */
  ghost predicate Undisturbed(ev: Event) { !ev.Failing? && (ev.Working? ==> ev.wired) }

  lemma CloseDeparts(e: Env, s: End, send: Bytes, recv: Bytes)
    requires InStep(e, s, send, recv) && GoodbyeLast(s) && Whole(s) && !s.closed && s.sendEpoch < REJECT_AFTER_EPOCHS
    ensures Departing(e, Step(e, s, Closing))
  {
    FramesSnoc(s.work, Finish);
    var t := Step(e, s, Closing);
    assert t.work[|t.work| - 1] == Finish;
    assert forall i :: 0 <= i < |s.work| ==> t.work[i] == s.work[i] && s.work[i] in s.work;
  }

  lemma Popping(s: End)
    requires s.work != [] && s.work[|s.work| - 1].Finish? && FinishLast(s.work)
    ensures var rest := s.work[1..];
            && FinishLast(rest) && (rest == [] <==> s.work[0].Finish?) && (rest != [] ==> rest[|rest| - 1].Finish?)
            && Frames(s.work) == FrameOf(s.work[0]) + Frames(rest)
  {
    assert forall i :: 0 <= i < |s.work| - 1 ==> s.work[1..][i] == s.work[i + 1];
    assert |s.work| > 1 ==> !s.work[0].Finish?;
  }

  lemma SealDeparts(e: Env, p: End, frame: Bytes, t: End)
    requires p.closed && p.parting && p.sendKey.Some? && p.accepted == p.sealed + ([frame] + Frames(p.work))
    requires p.work != [] && p.work[|p.work| - 1].Finish? && FinishLast(p.work)
    requires var w := SealFrame(e, p, frame); t == w.(queuedSlices := t.queuedSlices, queuedBytes := t.queuedBytes)
    ensures Departing(e, t)
  {
    hide Nonce, Frames, FinishLast;
    assert p.sealed + ([frame] + Frames(p.work)) == p.sealed + [frame] + Frames(p.work);
  }

  lemma FinishDeparts(e: Env, p: End, send: Bytes)
    requires SendsInStep(e, p, send) && p.closed && p.parting && p.sendKey.Some? && p.work == [] && p.accepted == p.sealed
    ensures Departing(e, Teardown(Farewell(e, p)))
  {
    hide Nonce;
  }

  lemma WorkDeparts(e: Env, s: End, send: Bytes)
    requires SendsInStep(e, s, send) && Departing(e, s)
    ensures Departing(e, Work(e, s, true))
  {
    hide SealFrame, Frames, FinishLast, Farewell, SendsInStep;
    if s.work != [] {
      var p := s.(work := s.work[1..]);
      Popping(s);
      match s.work[0]
      case Early(frame) => SealDeparts(e, p, frame, Work(e, s, true));
      case Seal(frame) => SealDeparts(e, p, frame, Work(e, s, true));
      case Decode(body) => assert FrameOf(s.work[0]) + Frames(p.work) == Frames(p.work);
      case Finish =>
        NoFrames(s.sealed);
        SameSends(e, s, p, send);
        FinishDeparts(e, p, send);
    }
  }

  lemma NoFrames(sealed: seq<Bytes>)
    ensures sealed + ([] + Frames([])) == sealed
  {
  }

  lemma EventDeparts(e: Env, s: End, ev: Event, send: Bytes)
    requires SendsInStep(e, s, send) && Departing(e, s) && Undisturbed(ev)
    ensures Departing(e, Step(e, s, ev))
  {
    hide SendsInStep, Work, Departing;
    if ev.Working? { WorkDeparts(e, s, send); } else { ClosedStays(e, s, ev); }
  }

  lemma ClosedStays(e: Env, s: End, ev: Event)
    requires Departing(e, s) && !ev.Working? && !ev.Failing?
    ensures Step(e, s, ev) == s
  {
  }

  lemma FirstDeparts(e: Env, s: End, send: Bytes, recv: Bytes, early: nat)
    requires EndOk(e, s, send, recv, early) && !s.closed && s.sendEpoch < REJECT_AFTER_EPOCHS
    ensures Departing(e, Step(e, s, Closing)) && Step(e, s, Closing).accepted == s.accepted
  {
    hide InStep, GoodbyeLast, Whole, Bounded, Departing;
    CloseDeparts(e, s, send, recv);
    StepTakes(e, s, Closing);
  }

  lemma NextDeparts(e: Env, s: End, ev: Event, send: Bytes, recv: Bytes, early: nat)
    requires EndOk(e, s, send, recv, early) && Departing(e, s) && Undisturbed(ev)
    ensures Departing(e, Step(e, s, ev)) && Step(e, s, ev).accepted == s.accepted
  {
    hide GoodbyeLast, Whole, Bounded, Departing, SendsInStep, ReadsInStep, Step;
    EventDeparts(e, s, ev, send);
    StepTakes(e, s, ev);
    DepartingTakesNothing(e, s, ev);
  }

  /** Over every run of an end: from a deliberate close of an open link on, with no failure and a
      channel that takes every record, once its chain is empty it has sealed everything it took, in
      order, and then the goodbye, exactly where that leaves the epochs not used up. */
  lemma {:induction false} CloseSaysGoodbye(e: Env, ss: seq<End>, evs: seq<Event>, send: Bytes, recv: Bytes, early: seq<Bytes>, m: nat, n: nat)
    requires EndRun(e, ss, evs, send, recv, early) && m < n < |ss|
    requires evs[m].Closing? && !ss[m].closed && ss[m].sendEpoch < REJECT_AFTER_EPOCHS
    requires forall i :: m < i < n ==> Undisturbed(evs[i])
    ensures Departing(e, ss[n]) && ss[n].accepted == ss[m].accepted
    ensures ss[n].work == [] ==>
              ss[n].sealed == ss[m].accepted + (if |ss[m].accepted| / Per(e) < 0x1_0000 then [[]] else [])
  {
    hide EndOk, Step, Departing, Undisturbed, Per;
    AlwaysEndOk(e, ss, evs, send, recv, early, n - 1);
    if n == m + 1 {
      FirstDeparts(e, ss[m], send, recv, |early|);
    } else {
      CloseSaysGoodbye(e, ss, evs, send, recv, early, m, n - 1);
      NextDeparts(e, ss[n - 1], evs[n - 1], send, recv, |early|);
    }
    WordSaid(e, ss[n]);
  }

  lemma DepartingTakesNothing(e: Env, s: End, ev: Event)
    requires Departing(e, s)
    ensures !(ev.Sending? && Takes(e, s, ev.frame))
  {
  }

  /** A link that has parted holds its key while its chain has work, and none after. */
  lemma WordSaid(e: Env, s: End)
    requires Departing(e, s)
    ensures s.work == [] ==> s.sealed == s.accepted + LastWord(e, s)
  {
  }

  /** And an empty chain is where work leads: each step takes one task off it. */
  lemma WorkEmpties(e: Env, s: End)
    requires Departing(e, s) && s.work != []
    ensures Work(e, s, true).work == s.work[1..]
  {
    hide SealFrame, Frames, FinishLast;
    SealLeavesWork(e, s.(work := s.work[1..]), s.work[0]);
  }

  lemma SealLeavesWork(e: Env, s: End, task: Task)
    requires s.closed
    ensures s.sendKey.Some? && (task.Early? || task.Seal?) ==> SealFrame(e, s, task.frame).work == s.work
    ensures s.sendKey.Some? ==> SealFrame(e, s, []).work == s.work
  {
    hide Nonce;
  }

  // ── a failure ────────────────────────────────────────────────────────────────────────

  /** Failed: closed with nothing more to say, and no goodbye said. */
  ghost predicate Mute(s: End) { s.closed && !s.parting && forall i :: 0 <= i < |s.sealed| ==> s.sealed[i] != [] }

  lemma FailMutes(e: Env, s: End, defensive: bool)
    requires forall i :: 0 <= i < |s.sealed| ==> s.sealed[i] != []
    ensures Mute(Step(e, s, Failing(defensive)))
  {
  }

  lemma StaysMute(e: Env, s: End, ev: Event)
    requires GoodbyeLast(s) && Mute(s)
    ensures Mute(Step(e, s, ev))
  {
    hide Nonce;
    if ev.Working? && s.work != [] { FirstOk(s); }
  }

  /** Over every run of an end: a failure is never followed by a goodbye, whatever its chain held,
      so a goodbye always means that a side chose to stop. */
  lemma {:induction false} FailureSaysNothing(e: Env, ss: seq<End>, evs: seq<Event>, send: Bytes, recv: Bytes, early: seq<Bytes>, m: nat, n: nat)
    requires EndRun(e, ss, evs, send, recv, early) && m < n < |ss|
    requires evs[m].Failing? && forall i :: 0 <= i < |ss[m].sealed| ==> ss[m].sealed[i] != []
    ensures ss[n].closed && forall i :: 0 <= i < |ss[n].sealed| ==> ss[n].sealed[i] != []
    ensures Mute(ss[n])
  {
    hide Step, InStep, Whole, Bounded, GoodbyeLast;
    if n == m + 1 {
      FailMutes(e, ss[m], evs[m].defensive);
    } else {
      FailureSaysNothing(e, ss, evs, send, recv, early, m, n - 1);
      AlwaysEndOk(e, ss, evs, send, recv, early, n - 1);
      StaysMute(e, ss[n - 1], evs[n - 1]);
    }
  }

  ghost predicate NoEarly(s: End) { forall t :: t in s.work ==> !t.Early? }

  lemma StaysSilent(e: Env, s: End, ev: Event)
    requires Mute(s) && NoEarly(s)
    ensures NoEarly(Step(e, s, ev)) && Step(e, s, ev).sealed == s.sealed && Step(e, s, ev).wire == s.wire
  {
    hide Nonce;
    if ev.Working? && s.work != [] { assert s.work[0] in s.work; }
  }

  /** And it drops the frames it had taken: once the frames queued before authentication
      are sealed, a failure is the last thing that happens on the wire. */
  lemma {:induction false} FailureSealsNothing(e: Env, ss: seq<End>, evs: seq<Event>, send: Bytes, recv: Bytes, early: seq<Bytes>, m: nat, n: nat)
    requires EndRun(e, ss, evs, send, recv, early) && m < n < |ss|
    requires evs[m].Failing? && NoEarly(ss[m]) && forall i :: 0 <= i < |ss[m].sealed| ==> ss[m].sealed[i] != []
    ensures NoEarly(ss[n]) && ss[n].sealed == ss[m].sealed && ss[n].wire == ss[m].wire
  {
    hide Step, NoEarly, Mute;
    if n == m + 1 {
      FailSeals(e, ss[m], evs[m].defensive);
    } else {
      FailureSealsNothing(e, ss, evs, send, recv, early, m, n - 1);
      FailureSaysNothing(e, ss, evs, send, recv, early, m, n - 1);
      StaysSilent(e, ss[n - 1], evs[n - 1]);
    }
  }

  lemma FailSeals(e: Env, s: End, defensive: bool)
    requires NoEarly(s)
    ensures var t := Step(e, s, Failing(defensive)); NoEarly(t) && t.sealed == s.sealed && t.wire == s.wire
  {
  }

  /** What an end says of how it went, by what ended it. */
  lemma EndsAs(e: Env, s: End, defensive: bool)
    requires !s.closed && !s.peerSaidGoodbye && !s.aborted && !s.closedLocally
    ensures CloseReason(Step(e, s, Closing)).Local? && CloseReason(Step(e, s, Dropped)).Truncated?
    ensures CloseReason(Step(e, s, Failing(defensive))) == if defensive then Aborted else Local
    ensures Step(e, s, Dropped).sendKey.None? && Step(e, s, Dropped).recvKey.None? && Step(e, s, Dropped).work == s.work
  {
  }

  /** A send on an open link that it does not take ends the link where its queue is full, as a failure,
      or its epochs are used up; any other it does not take changes nothing. */
  lemma RefusedSend(e: Env, s: End, frame: Bytes)
    requires !s.closed && !s.parting && !Takes(e, s, frame)
    ensures var t := Step(e, s, Sending(frame));
            && t.accepted == s.accepted && !t.parting
            && (t.closed <==> frame != [] && |frame| <= e.limits.maxFrame - 16)
            && (!t.closed ==> t == s)
  {
  }

  lemma SealLeaves(e: Env, s: End, frame: Bytes)
    requires s.sendKey.Some?
    ensures var t := SealFrame(e, s, frame);
            t.sealed == s.sealed + [frame] && t.work == s.work && t.closed == s.closed && t.parting == s.parting
  {
    hide Nonce;
  }

  lemma FailsNow(s: End)
    ensures var t := Abort(s, false);
            && t.closed && !t.parting && t.sealed == s.sealed && t.work == (if s.closed then s.work else s.work + [Finish])
  {
  }

  lemma RefusedWire(e: Env, s: End, frame: Bytes)
    requires s.sendKey.Some?
    ensures var t := WireRecord(e, s, frame, false);
            && t.closed && !t.parting && t.sealed == s.sealed + [frame] && t.work == (if s.closed then s.work else s.work + [Finish])
  {
    hide SealFrame, EndLink;
    SealLeaves(e, s, frame);
    FailsNow(SealFrame(e, s, frame));
  }

  /** A frame the channel does not take fails the link, with nothing more to say. */
  lemma RefusedFrameFails(e: Env, s: End)
    requires s.work != [] && (s.work[0].Early? || (s.work[0].Seal? && (!s.closed || s.parting))) && s.sendKey.Some?
    ensures var t := Work(e, s, false);
            && t.closed && !t.parting && t.sealed == s.sealed + [s.work[0].frame]
            && t.work == (if s.closed then s.work[1..] else s.work[1..] + [Finish])
  {
    hide WireRecord;
    RefusedWire(e, s.(work := s.work[1..]), s.work[0].frame);
  }

  /** A link that has heard the peer's goodbye says none itself. */
  ghost predicate HeardOut(s: End) { s.peerSaidGoodbye ==> Mute(s) }

  lemma HeardOutStep(e: Env, s: End, ev: Event)
    requires GoodbyeLast(s) && Whole(s) && HeardOut(s)
    ensures HeardOut(Step(e, s, ev))
  {
    hide Whole, GoodbyeLast, Step;
    if s.peerSaidGoodbye {
      StaysMute(e, s, ev);
    } else {
      NewlyHeard(e, s, ev);
    }
  }

  lemma NewlyHeard(e: Env, s: End, ev: Event)
    requires GoodbyeLast(s) && Whole(s) && !s.peerSaidGoodbye
    ensures HeardOut(Step(e, s, ev))
  {
    hide Nonce, Frames, FinishLast, WireRecord, EndLink, Farewell;
    EndHears(s, true, false);
    EndHears(s, false, false);
    if ev.Failing? { EndHears(s, false, ev.defensive); }
    if ev.Working? && s.work != [] {
      var p := s.(work := s.work[1..]);
      match s.work[0]
      case Early(frame) => WireHears(e, p, frame, ev.wired);
      case Seal(frame) => WireHears(e, p, frame, ev.wired);
      case Decode(body) => if !p.closed { OpenNoGoodbye(s); RecordHears(e, p, body); }
      case Finish => FarewellHears(e, p);
    }
  }

  lemma OpenNoGoodbye(s: End)
    requires GoodbyeLast(s) && Whole(s) && !s.closed
    ensures forall i :: 0 <= i < |s.sealed| ==> s.sealed[i] != []
  {
  }

  lemma EndHears(s: End, farewell: bool, defensive: bool)
    ensures EndLink(s, farewell, defensive).peerSaidGoodbye == s.peerSaidGoodbye
    ensures EndLink(s, farewell, defensive).sealed == s.sealed
    ensures s.peerSaidGoodbye && !s.closed ==> EndLink(s, farewell, defensive).closed && !EndLink(s, farewell, defensive).parting
  {
  }

  lemma WireHears(e: Env, s: End, frame: Bytes, wired: bool)
    ensures WireRecord(e, s, frame, wired).peerSaidGoodbye == s.peerSaidGoodbye
  {
    hide Nonce, EndLink;
    EndHears(s, false, false);
    if s.sendKey.Some? { EndHears(SealFrame(e, s, frame), false, false); }
  }

  lemma FarewellHears(e: Env, s: End)
    ensures Farewell(e, s).peerSaidGoodbye == s.peerSaidGoodbye
  {
    hide Nonce;
  }

  lemma RecordHears(e: Env, s: End, body: Bytes)
    requires !s.closed && !s.peerSaidGoodbye && forall i :: 0 <= i < |s.sealed| ==> s.sealed[i] != []
    ensures HeardOut(OnRecord(e, s, body))
  {
    hide Nonce, EndLink, OnRecord, Advance;
    EndHears(s, false, true);
    EndHears(s, false, false);
    if Opens(e, s, body) {
      OnOpened(e, s, body);
      var m := e.c.open(s.recvKey.value, Nonce(s.recvEpoch, s.recvCtr), body).value;
      EndHears(Advance(e, s).(got := s.got + [m], peerSaidGoodbye := true), true, false);
    } else {
      UnopenedHears(e, s, body);
    }
  }

  lemma UnopenedHears(e: Env, s: End, body: Bytes)
    requires !Opens(e, s, body)
    ensures OnRecord(e, s, body).peerSaidGoodbye == s.peerSaidGoodbye
  {
    hide Nonce, EndLink;
    EndHears(s, false, true);
    EndHears(s, false, false);
  }

  /** Over every run of an end: a goodbye is never answered with one. */
  lemma {:induction false} GoodbyeNotAnswered(e: Env, ss: seq<End>, evs: seq<Event>, send: Bytes, recv: Bytes, early: seq<Bytes>, n: nat)
    requires EndRun(e, ss, evs, send, recv, early) && n < |ss|
    ensures HeardOut(ss[n])
    ensures ss[n].peerSaidGoodbye ==> forall i :: 0 <= i < |ss[n].sealed| ==> ss[n].sealed[i] != []
  {
    hide Step, InStep, Whole, Bounded, GoodbyeLast;
    if n > 0 {
      GoodbyeNotAnswered(e, ss, evs, send, recv, early, n - 1);
      AlwaysEndOk(e, ss, evs, send, recv, early, n - 1);
      HeardOutStep(e, ss[n - 1], evs[n - 1]);
    }
  }

  /** A record an open link cannot open ends it, as the peer's doing unless the epochs are used up:
      nothing is passed on, and no goodbye is to be said. */
  lemma RefusedRecordAborts(e: Env, s: End, body: Bytes)
    requires !s.closed && !s.peerSaidGoodbye && !s.aborted && !Opens(e, s, body)
    ensures var t := OnRecord(e, s, body);
            && t.closed && !t.parting && t.delivered == s.delivered && t.got == s.got
            && CloseReason(t) == (if s.recvKey.Some? && TAG_LEN <= |body| <= e.limits.maxFrame && s.recvEpoch >= 0x1_0000
                                  then Local else Aborted)
  {
    hide Nonce;
  }

  // ── the queue's bytes ────────────────────────────────────────────────────────────────

  function QueuedBytes(work: seq<Task>): nat {
    if work == [] then 0 else (if work[0].Seal? then |work[0].frame| else 0) + QueuedBytes(work[1..])
  }

  lemma {:induction false} QueuedSnoc(work: seq<Task>, t: Task)
    ensures QueuedBytes(work + [t]) == QueuedBytes(work) + (if t.Seal? then |t.frame| else 0)
  {
    if work != [] {
      assert (work + [t])[1..] == work[1..] + [t];
      QueuedSnoc(work[1..], t);
    }
  }

  ghost predicate BytesCounted(e: Env, s: End) { s.queuedBytes == QueuedBytes(s.work) <= e.limits.maxQueueBytes }

  /** What a step of the chain does to the queue behind it: at most one teardown joins. */
  ghost predicate QueueKept(s: End, t: End) {
    t.queuedBytes == s.queuedBytes && (t.work == s.work || t.work == s.work + [Finish])
  }

  lemma EndQueue(s: End, farewell: bool, defensive: bool)
    ensures QueueKept(s, EndLink(s, farewell, defensive))
  {
  }

  lemma WireQueue(e: Env, s: End, frame: Bytes, wired: bool)
    ensures QueueKept(s, WireRecord(e, s, frame, wired))
  {
    hide Nonce, EndLink;
    EndQueue(s, false, false);
    if s.sendKey.Some? { EndQueue(SealFrame(e, s, frame), false, false); }
  }

  lemma OpenedQueue(e: Env, s: End, body: Bytes)
    requires Opens(e, s, body)
    ensures QueueKept(s, OnRecord(e, s, body))
  {
    hide Nonce, EndLink, OnRecord, Advance;
    OnOpened(e, s, body);
    var m := e.c.open(s.recvKey.value, Nonce(s.recvEpoch, s.recvCtr), body).value;
    EndQueue(Advance(e, s).(got := s.got + [m], peerSaidGoodbye := true), true, false);
  }

  lemma RecordQueue(e: Env, s: End, body: Bytes)
    ensures QueueKept(s, OnRecord(e, s, body))
  {
    hide Nonce, EndLink, QueueKept;
    EndQueue(s, false, true);
    EndQueue(s, false, false);
    if Opens(e, s, body) { OpenedQueue(e, s, body); }
  }

  lemma StepCounts(e: Env, s: End, ev: Event)
    requires BytesCounted(e, s)
    ensures BytesCounted(e, Step(e, s, ev))
  {
    hide WireRecord, OnRecord, EndLink, Nonce;
    QueuedSnoc(s.work, Finish);
    EndQueue(s, true, false);
    EndQueue(s, false, false);
    match ev
    case Sending(frame) => QueuedSnoc(s.work, Seal(frame));
    case Arriving(body) => QueuedSnoc(s.work, Decode(body));
    case Working(wired) => if s.work != [] { WorkCounts(e, s, wired); }
    case Closing =>
    case Failing(defensive) => EndQueue(s, false, defensive);
    case Dropped =>
  }

  lemma WorkCounts(e: Env, s: End, wired: bool)
    requires BytesCounted(e, s) && s.work != []
    ensures BytesCounted(e, Work(e, s, wired))
  {
    hide WireRecord, OnRecord, Farewell;
    var p := s.(work := s.work[1..]);
    QueuedSnoc(p.work, Finish);
    match s.work[0]
    case Early(frame) => WireQueue(e, p, frame, wired);
    case Seal(frame) => WireQueue(e, p, frame, wired);
    case Decode(body) => RecordQueue(e, p, body);
    case Finish => FarewellQueue(e, p);
  }

  lemma FarewellQueue(e: Env, s: End)
    ensures var t := Farewell(e, s); t.queuedBytes == s.queuedBytes && t.work == s.work
  {
    hide Nonce;
  }

  /** Over every run of an end: the bytes counted as queued are those of the frames on its chain, and
      within their bound. */
  lemma {:induction false} QueueBytesBounded(e: Env, ss: seq<End>, evs: seq<Event>, send: Bytes, recv: Bytes, early: seq<Bytes>, n: nat)
    requires EndRun(e, ss, evs, send, recv, early) && n < |ss|
    ensures BytesCounted(e, ss[n])
  {
    hide Step;
    if n == 0 {
      EarlyBytes(early);
    } else {
      QueueBytesBounded(e, ss, evs, send, recv, early, n - 1);
      StepCounts(e, ss[n - 1], evs[n - 1]);
    }
  }

  lemma {:induction false} EarlyBytes(early: seq<Bytes>)
    ensures QueuedBytes(Earlies(early)) == 0
  {
    if early != [] {
      assert Earlies(early)[1..] == Earlies(early[1..]);
      EarlyBytes(early[1..]);
    }
  }

  // ── the peer ─────────────────────────────────────────────────────────────────────────

  /** Records arriving one after another, each read before the next. */
  function Reads(records: seq<Bytes>): seq<Event> {
    if records == [] then [] else [Arriving(records[0]), Working(true)] + Reads(records[1..])
  }

  /** `to` stands where `from`'s next record opens, with nothing on its chain; or it has read all
      there is, the goodbye last. */
  ghost predicate Reading(e: Env, from: End, to: End, key: Bytes, back: Bytes) {
    && SendsInStep(e, from, key) && InStep(e, to, back, key) && GoodbyeLast(from) && GoodbyeLast(to)
    && to.got <= from.sealed
    && (if to.closed then to.got == from.sealed && to.peerSaidGoodbye else to.recvKey.Some? && to.work == [])
  }

  /** Every record left is one the peer's limits allow. */
  ghost predicate Readable(e: Env, from: End, got: nat) {
    && (forall i :: got <= i < |from.wire| ==> TAG_LEN <= |from.wire[i]| <= e.limits.maxFrame)
    && (|from.sealed| - 1) / Per(e) < REJECT_AFTER_EPOCHS
  }

  lemma OneTask(e: Env, to: End, body: Bytes)
    requires !to.closed && to.work == []
    ensures Step(e, Step(e, to, Arriving(body)), Working(true)) == OnRecord(e, to, body)
  {
    hide OnRecord;
    var m := Step(e, to, Arriving(body));
    assert m.work == [Decode(body)] && m.work[1..] == [];
    assert m.(work := m.work[1..]) == to;
  }

  lemma NextOpens(e: Env, from: End, to: End, key: Bytes)
    requires Lawful(e.c) && SendsInStep(e, from, key) && ReadsInStep(e, to, key) && to.recvKey.Some?
    requires |to.got| < |from.sealed| && Readable(e, from, |to.got|)
    ensures Opens(e, to, from.wire[|to.got|])
    ensures e.c.open(to.recvKey.value, Nonce(to.recvEpoch, to.recvCtr), from.wire[|to.got|]) == Some(from.sealed[|to.got|])
  {
    hide Nonce, Per;
    var i := |to.got|;
    if i < |from.sealed| - 1 { Ordered(Per(e), i, |from.sealed| - 1); }
    assert from.wire[i] == e.c.seal(KeyAt(e, key, i), NonceAt(e, i), from.sealed[i]);
  }

  lemma StillReading(e: Env, from: End, got: seq<Bytes>, u: End, key: Bytes, back: Bytes)
    requires SendsInStep(e, from, key) && GoodbyeLast(from) && got <= from.sealed && |got| < |from.sealed|
    requires InStep(e, u, back, key) && GoodbyeLast(u) && u.got == got + [from.sealed[|got|]]
    requires (u.closed <==> from.sealed[|got|] == []) && (u.closed ==> u.peerSaidGoodbye)
    requires !u.closed ==> u.recvKey.Some? && u.work == []
    ensures Reading(e, from, u, key, back)
  {
    LastIsGoodbye(from, |got|);
    hide SendsInStep, InStep, GoodbyeLast;
    if u.closed { assert u.got == from.sealed; }
  }

  /** The next record read: opened, and the link ends at the goodbye. */
  lemma ReadsNext(e: Env, from: End, to: End, key: Bytes, back: Bytes)
    requires Lawful(e.c) && Reading(e, from, to, key, back) && Readable(e, from, |to.got|)
    requires !to.closed && |to.got| < |from.sealed|
    ensures var u := Step(e, Step(e, to, Arriving(from.wire[|to.got|])), Working(true));
            Reading(e, from, u, key, back) && u.got == to.got + [from.sealed[|to.got|]]
  {
    var body := from.wire[|to.got|];
    OneTask(e, to, body);
    NextOpens(e, from, to, key);
    hide Nonce, SendsInStep, InStep, Lawful, OnRecord, Readable, Opens, GoodbyeLast, Step;
    OpensKeeps(e, to, body, back, key);
    OpensShape(e, to, body);
    StillReading(e, from, to.got, OnRecord(e, to, body), key, back);
  }

  lemma LastIsGoodbye(from: End, i: nat)
    requires GoodbyeLast(from) && i < |from.sealed|
    ensures from.sealed[i] == [] ==> i + 1 == |from.sealed|
  {
  }

  lemma OpensShape(e: Env, s: End, body: Bytes)
    requires Opens(e, s, body) && !s.closed
    ensures var m := e.c.open(s.recvKey.value, Nonce(s.recvEpoch, s.recvCtr), body).value;
            var t := OnRecord(e, s, body);
            && t.got == s.got + [m] && (t.closed <==> m == [])
            && (m == [] ==> t.peerSaidGoodbye) && (m != [] ==> t.recvKey.Some? && t.work == s.work)
  {
    hide Nonce;
  }

  /** Read in order, the records left end the link clean just where the goodbye is the last. */
  lemma {:induction false} ReadsAll(e: Env, from: End, to: End, key: Bytes, back: Bytes)
    requires Lawful(e.c) && Reading(e, from, to, key, back) && Readable(e, from, |to.got|) && |from.wire| == |from.sealed|
    ensures var u := Trace(e, to, Reads(from.wire[|to.got|..]));
            && Reading(e, from, u, key, back) && u.got == from.sealed
    decreases |from.sealed| - |to.got|
  {
    hide SendsInStep, InStep, GoodbyeLast, Lawful, Step;
    var left := from.wire[|to.got|..];
    if to.closed || left == [] {
      assert left == [];
    } else {
      var body := left[0];
      ReadsNext(e, from, to, key, back);
      var mid := Step(e, to, Arriving(body));
      var u := Step(e, mid, Working(true));
      assert left[1..] == from.wire[|u.got|..];
      TwoFirst(e, to, body, left[1..]);
      assert left == [body] + left[1..];
      ReadableOn(e, from, |to.got|, |u.got|);
      ReadsAll(e, from, u, key, back);
    }
  }

  lemma ReadableOn(e: Env, from: End, i: nat, j: nat)
    requires Readable(e, from, i) && i <= j
    ensures Readable(e, from, j)
  {
  }

  lemma TwoFirst(e: Env, s: End, body: Bytes, rest: seq<Bytes>)
    ensures Trace(e, s, Reads([body] + rest)) == Trace(e, Step(e, Step(e, s, Arriving(body)), Working(true)), Reads(rest))
  {
    hide Step;
    assert ([body] + rest)[1..] == rest;
    var evs := Reads([body] + rest);
    assert evs == [Arriving(body), Working(true)] + Reads(rest);
    assert evs[1..] == [Working(true)] + Reads(rest) && evs[1..][1..] == Reads(rest);
  }

  // ── both keys or none ────────────────────────────────────────────────────────────────

  ghost predicate Keyed(s: End) { s.sendKey.Some? <==> s.recvKey.Some? }

  lemma StepKeyed(e: Env, s: End, ev: Event)
    requires Keyed(s)
    ensures Keyed(Step(e, s, ev))
  {
    hide Nonce;
    if ev.Working? && s.work != [] {
      var p := s.(work := s.work[1..]);
      match s.work[0]
      case Early(frame) => WireKeyed(e, p, frame, ev.wired);
      case Seal(frame) => WireKeyed(e, p, frame, ev.wired);
      case Decode(body) => OnRecordKeyed(e, p, body);
      case Finish =>
    }
  }

  lemma EndKeyed(s: End, farewell: bool, defensive: bool)
    ensures var t := EndLink(s, farewell, defensive); t.sendKey == s.sendKey && t.recvKey == s.recvKey
  {
  }

  lemma WireKeyed(e: Env, s: End, frame: Bytes, wired: bool)
    requires Keyed(s)
    ensures Keyed(WireRecord(e, s, frame, wired))
  {
    hide Nonce, EndLink;
    EndKeyed(s, false, false);
    if s.sendKey.Some? { EndKeyed(SealFrame(e, s, frame), false, false); }
  }

  lemma OpenedKeyed(e: Env, s: End, body: Bytes)
    requires Keyed(s) && Opens(e, s, body)
    ensures Keyed(OnRecord(e, s, body))
  {
    hide Nonce, EndLink, OnRecord;
    OnOpened(e, s, body);
    var m := e.c.open(s.recvKey.value, Nonce(s.recvEpoch, s.recvCtr), body).value;
    EndKeyed(Advance(e, s).(got := s.got + [m], peerSaidGoodbye := true), true, false);
  }

  lemma OnRecordKeyed(e: Env, s: End, body: Bytes)
    requires Keyed(s)
    ensures Keyed(OnRecord(e, s, body))
  {
    hide Nonce, EndLink;
    EndKeyed(s, false, true);
    EndKeyed(s, false, false);
    hide Keyed;
    if Opens(e, s, body) { OpenedKeyed(e, s, body); } else { RefusedKeyed(e, s, body); }
  }

  lemma RefusedKeyed(e: Env, s: End, body: Bytes)
    requires Keyed(s) && !Opens(e, s, body)
    ensures Keyed(OnRecord(e, s, body))
  {
    hide Nonce;
  }

  lemma {:induction false} AlwaysKeyed(e: Env, ps: seq<Pair>, acts: seq<Act>, ab: Bytes, ba: Bytes, n: nat)
    requires Run(e, ps, acts, ab, ba) && n < |ps|
    ensures Keyed(ps[n].a) && Keyed(ps[n].b)
  {
    hide Step, Possible;
    if n > 0 {
      AlwaysKeyed(e, ps, acts, ab, ba, n - 1);
      StepKeyed(e, ps[n - 1].a, acts[n - 1].ev);
      StepKeyed(e, ps[n - 1].b, acts[n - 1].ev);
      assert ps[n] == Apply(e, ps[n - 1], acts[n - 1]);
    }
  }

  /** From end to end: where an end has said its goodbye, and its peer is open with nothing on its
      chain, the records left, delivered in order within the peer's limits, end that link clean, with
      every frame taken passed on. */
  lemma GoodbyeEndsClean(e: Env, ps: seq<Pair>, acts: seq<Act>, ab: Bytes, ba: Bytes, n: nat)
    requires Lawful(e.c) && Run(e, ps, acts, ab, ba) && n < |ps|
    requires ps[n].a.sealed == ps[n].a.accepted + [[]] && !ps[n].b.closed && ps[n].b.work == []
    requires Readable(e, ps[n].a, |ps[n].b.got|)
    ensures |ps[n].b.got| <= |ps[n].a.wire|
    ensures var b := Trace(e, ps[n].b, Reads(ps[n].a.wire[|ps[n].b.got|..]));
            CloseReason(b).Clean? && b.delivered == ps[n].a.accepted
  {
    hide Trace, Step, Readable, Lawful, EndOk;
    AlwaysLinked(e, ps, acts, ab, ba, n);
    AlwaysKeyed(e, ps, acts, ab, ba, n);
    EndsWhole(e, ps, acts, ab, ba, n);
    var early :| EndOk(e, ps[n].b, ba, ab, early);
    OpenHasKey(e, ps[n].b, ba, ab, early);
    var from, to := ps[n].a, ps[n].b;
    assert Reading(e, from, to, ab, ba);
    ReadsAll(e, from, to, ab, ba);
    AllRead(e, from, Trace(e, to, Reads(from.wire[|to.got|..])), ab, ba);
  }

  lemma AllRead(e: Env, from: End, u: End, key: Bytes, back: Bytes)
    requires Reading(e, from, u, key, back) && u.got == from.sealed == from.accepted + [[]]
    ensures CloseReason(u).Clean? && u.delivered == from.accepted
  {
    var last := |from.accepted|;
    assert u.got[last] == [];
    forall i | 0 <= i < |u.delivered| ensures u.delivered[i] != [] { assert u.delivered[i] in u.delivered; }
    assert u.got[..last] == from.accepted && (u.delivered + [[]])[..|u.delivered|] == u.delivered;
  }

  lemma OpenHasKey(e: Env, s: End, send: Bytes, recv: Bytes, early: nat)
    requires EndOk(e, s, send, recv, early) && !s.closed
    ensures s.sendKey.Some?
  {
  }
}
