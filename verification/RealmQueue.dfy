/** Entry into one confined realm (WASM/host/realm-queue.ts): calls queue in order and enter
    singly, each under a deadline, and the deadlines share one timer. What each event makes
    of the state is a function; proved of every run: each call settles at most once, calls start
    in the order they came and never at or past their deadline, a free realm with calls waiting
    has a pump scheduled, and a bounded call not settled has the timer due within a tick of its
    deadline. */
module RealmQueue {
  import opened Base

  const MAX_TIMER: real := 2147483647.0

  // ── the deadline queue ─────────────────────────────────────────────────────────────

  datatype Deadline = Deadline(id: nat, at: real)

  /** The deadlines pending, in the order they were added, and when the timer is due. */
  datatype Deadlines = Deadlines(pending: seq<Deadline>, timerAt: Ext)

  /** Due means within a millisecond, the timer's resolution. */
  predicate IsDue(d: Deadline, now: real) { d.at - now < 1.0 }

  function Later(ps: seq<Deadline>, now: real): (l: seq<Deadline>)
    ensures forall d :: d in l <==> d in ps && !IsDue(d, now)
  {
    if ps == [] then [] else (if IsDue(ps[0], now) then [] else [ps[0]]) + Later(ps[1..], now)
  }

  function Due(ps: seq<Deadline>, now: real): (l: seq<nat>)
    ensures forall id :: id in l <==> exists d :: d in ps && d.id == id && IsDue(d, now)
  {
    if ps == [] then [] else
      assert forall d :: d in ps <==> d == ps[0] || d in ps[1..];
      (if IsDue(ps[0], now) then [ps[0].id] else []) + Due(ps[1..], now)
  }

  function Soonest(ps: seq<Deadline>): (at: Ext)
    ensures at == PosInf <==> ps == []
    ensures at != NegInf && forall d :: d in ps ==> Le(at, Fin(d.at))
  {
    if ps == [] then PosInf else ExtMin(Fin(ps[0].at), Soonest(ps[1..]))
  }

  /** The timer set again for the earliest of what is not due. */
  function Arm(q: Deadlines, now: real): Deadlines {
    var left := Later(q.pending, now);
    Deadlines(left, if left == [] then PosInf else ExtMin(Soonest(left), Fin(now + MAX_TIMER)))
  }

  /** A new deadline moves the timer only by a whole tick. */
  predicate Moves(q: Deadlines, d: Deadline) { q.timerAt == PosInf || (q.timerAt.Fin? && d.at < q.timerAt.r - 1.0) }

  datatype Added = Added(q: Deadlines, due: seq<nat>)

  function Add(q: Deadlines, d: Deadline, now: real): Added {
    var more := q.(pending := q.pending + [d]);
    if Moves(q, d) then Added(Arm(more, now), Due(more.pending, now)) else Added(more, [])
  }

  function Without(ps: seq<Deadline>, id: nat): (l: seq<Deadline>)
    ensures forall d :: d in l <==> d in ps && d.id != id
  {
    if ps == [] then [] else (if ps[0].id == id then [] else [ps[0]]) + Without(ps[1..], id)
  }

  function Drop(q: Deadlines, id: nat): Deadlines { q.(pending := Without(q.pending, id)) }

  // ── the calls ──────────────────────────────────────────────────────────────────────

  datatype Entry = Entry(at: Ext, settled: bool, invoked: bool)
  datatype Start = Start(id: nat, time: real)

  /** The calls by number, in the order admitted; those waiting; the one in the realm; whether a
      turn to enter the next is scheduled. `started` and `settles` are history. */
  datatype Realm = Realm(entries: seq<Entry>, waiting: seq<nat>, running: Option<nat>, pumping: bool,
                         deadlines: Deadlines, started: seq<Start>, settles: seq<nat>)

  function Idle(): Realm { Realm([], [], None, false, Deadlines([], PosInf), [], []) }

  function Finish(r: Realm, id: nat): Realm {
    if id >= |r.entries| || r.entries[id].settled then r
    else r.(entries := r.entries[id := r.entries[id].(settled := true)],
            deadlines := Drop(r.deadlines, id), settles := r.settles + [id])
  }

  function Pump(r: Realm): Realm {
    if r.pumping || r.running.Some? || r.waiting == [] then r else r.(pumping := true)
  }

  function Release(r: Realm, id: nat): Realm {
    if r.running != Some(id) then r else Pump(r.(running := None))
  }

  function Expire(r: Realm, id: nat): Realm { Release(Finish(r, id), id) }

  function ExpireAll(r: Realm, ids: seq<nat>): Realm
    decreases |ids|
  {
    if ids == [] then r else ExpireAll(Expire(r, ids[0]), ids[1..])
  }

  function OnTimer(r: Realm, now: real): Realm {
    ExpireAll(r.(deadlines := Arm(r.deadlines, now)), Due(r.deadlines.pending, now))
  }

  /** A call admitted under deadline `at`. */
  function Admit(r: Realm, at: Ext, now: real): Realm {
    var id := |r.entries|;
    var e := r.(entries := r.entries + [Entry(at, false, false)]);
    var a := if at.Fin? then Bound(e, id, at.r, now) else e;
    if a.entries[id].settled then a else Pump(a.(waiting := a.waiting + [id]))
  }

  /** Its deadline added, which may expire what is due, itself among it. */
  function Bound(r: Realm, id: nat, at: real, now: real): (b: Realm)
    ensures |b.entries| == |r.entries|
  {
    var added := Add(r.deadlines, Deadline(id, at), now);
    ExpireSize(r.(deadlines := added.q), added.due);
    ExpireAll(r.(deadlines := added.q), added.due)
  }

  lemma {:induction false} ExpireSize(r: Realm, ids: seq<nat>)
    ensures |ExpireAll(r, ids).entries| == |r.entries|
    decreases |ids|
  {
    if ids != [] { ExpireSize(Expire(r, ids[0]), ids[1..]); }
  }

  /** What the realm and its guest do when entered: whether it is ready for a call, and whether
      the call throws at once. */
  datatype Guest = Guest(ready: nat -> bool, throws: nat -> bool)

  /** Give the realm to the next call that has not settled and has time left. */
  function Enter(r: Realm, now: real, g: Guest): Realm
    decreases |r.waiting|
  {
    if r.running.Some? || r.waiting == [] then r
    else
      var id, s := r.waiting[0], r.(waiting := r.waiting[1..]);
      if id >= |s.entries| || s.entries[id].settled then Enter(s, now, g)
      else if Le(s.entries[id].at, Fin(now)) then Enter(Finish(s, id), now, g)
      else if !g.ready(id) then Enter(Finish(s, id), now, g)
      else
        var t := Invoke(s, id, now);
        if g.throws(id) then Enter(Finish(t.(running := None), id), now, g) else t
  }

  function Invoke(r: Realm, id: nat, now: real): Realm
    requires id < |r.entries|
  {
    r.(running := Some(id), entries := r.entries[id := r.entries[id].(invoked := true)], started := r.started + [Start(id, now)])
  }

  function EnterNext(r: Realm, now: real, g: Guest): Realm { Enter(r.(pumping := false), now, g) }

  function OnResult(r: Realm, id: nat): Realm { Release(Finish(r, id), id) }

  datatype Event =
    | Called(at: Ext, now: real)
    | Pumped(now: real, g: Guest)
    | Fired(now: real)
    | Resulted(id: nat)
    | Deferred(id: nat)

  /** A pump runs when scheduled, a timer no sooner than due, and an invocation answers or ends
      its synchronous part after it began. */
  ghost predicate Possible(r: Realm, e: Event) {
    match e
    case Called(at, _) => at != NegInf
    case Pumped(_, _) => r.pumping
    case Fired(now) => Le(r.deadlines.timerAt, Fin(now))
    case Resulted(id) => id < |r.entries| && r.entries[id].invoked
    case Deferred(id) => id < |r.entries| && r.entries[id].invoked
  }

  function Step(r: Realm, e: Event): Realm {
    match e
    case Called(at, now) => Admit(r, at, now)
    case Pumped(now, g) => EnterNext(r, now, g)
    case Fired(now) => OnTimer(r, now)
    case Resulted(id) => OnResult(r, id)
    case Deferred(id) => Release(r, id)
  }

  // ── what every step keeps ──────────────────────────────────────────────────────────

  /** In order: what waits came after all that started, and each started in time. */
  ghost predicate InOrder(r: Realm) {
    && (forall i :: 0 <= i < |r.waiting| ==> r.waiting[i] < |r.entries|)
    && (forall i, j :: 0 <= i < j < |r.waiting| ==> r.waiting[i] < r.waiting[j])
    && (forall i, j :: 0 <= i < j < |r.started| ==> r.started[i].id < r.started[j].id)
    && (forall i, j :: 0 <= i < |r.started| && 0 <= j < |r.waiting| ==> r.started[i].id < r.waiting[j])
    && (forall i :: 0 <= i < |r.started| ==>
          r.started[i].id < |r.entries| && Lt(Fin(r.started[i].time), r.entries[r.started[i].id].at))
  }

  /** Each settled once, and none lost: a call not settled waits or was begun. */
  ghost predicate Settling(r: Realm) {
    && (forall i, j :: 0 <= i < j < |r.settles| ==> r.settles[i] != r.settles[j])
    && (forall id :: id in r.settles <==> 0 <= id < |r.entries| && r.entries[id].settled)
    && (forall id :: 0 <= id < |r.entries| && !r.entries[id].settled ==> id in r.waiting || r.entries[id].invoked)
  }

  /** The deadlines pending are those of the bounded calls not settled. */
  ghost predicate Pending(r: Realm) {
    && (forall d :: d in r.deadlines.pending ==> d.id < |r.entries| && !r.entries[d.id].settled && r.entries[d.id].at == Fin(d.at))
    && (forall id: nat :: id < |r.entries| && !r.entries[id].settled && r.entries[id].at.Fin? ==>
          Deadline(id, r.entries[id].at.r) in r.deadlines.pending)
  }

  /** While any deadline is pending the timer is set, for none later than a tick past it. */
  ghost predicate Timed(q: Deadlines) {
    q.timerAt != NegInf && forall d :: d in q.pending ==> Le(q.timerAt, Fin(d.at + 1.0))
  }

  /** A free realm with calls waiting has a turn scheduled. */
  ghost predicate Pumping(r: Realm) { r.running.None? && r.waiting != [] ==> r.pumping }

  ghost predicate Ok(r: Realm) { InOrder(r) && Settling(r) && Pending(r) && Timed(r.deadlines) && Pumping(r) }

  /** All but the pump, which a turn already running need not have scheduled. */
  ghost predicate OkInside(r: Realm) { InOrder(r) && Settling(r) && Pending(r) && Timed(r.deadlines) }

  lemma FinishOk(r: Realm, id: nat)
    requires OkInside(r)
    ensures var f := Finish(r, id);
            OkInside(f) && f.waiting == r.waiting && f.running == r.running && f.pumping == r.pumping && |f.entries| == |r.entries|
            && (id < |r.entries| ==> f.entries[id].settled)
  {
    FinishSettling(r, id);
    FinishPending(r, id);
  }

  lemma FinishSettling(r: Realm, id: nat)
    requires Settling(r)
    ensures Settling(Finish(r, id))
  {
  }

  lemma FinishPending(r: Realm, id: nat)
    requires Pending(r)
    ensures Pending(Finish(r, id))
  {
  }

  lemma ReleaseOk(r: Realm, id: nat)
    requires OkInside(r)
    ensures OkInside(Release(r, id)) && (Pumping(r) ==> Pumping(Release(r, id)))
    ensures var t := Release(r, id); t.entries == r.entries && t.waiting == r.waiting && t.deadlines == r.deadlines
  {
  }

  lemma {:induction false} ExpireAllOk(r: Realm, ids: seq<nat>)
    requires OkInside(r)
    ensures var t := ExpireAll(r, ids);
            OkInside(t) && (Pumping(r) ==> Pumping(t)) && |t.entries| == |r.entries| && t.waiting == r.waiting
            && (forall id :: id in ids && id < |t.entries| ==> t.entries[id].settled)
            && (forall id :: 0 <= id < |r.entries| && r.entries[id].settled ==> t.entries[id].settled)
    decreases |ids|
  {
    hide OkInside, Release;
    if ids != [] {
      FinishOk(r, ids[0]);
      ReleaseOk(Finish(r, ids[0]), ids[0]);
      ExpireAllOk(Expire(r, ids[0]), ids[1..]);
    }
  }

  /** The queue's timer set again, and the calls that are due expired: Pending holds of the two
      together, not in between. */
  ghost predicate PendingBut(r: Realm, due: seq<nat>) {
    && (forall d :: d in r.deadlines.pending ==> d.id < |r.entries| && !r.entries[d.id].settled && r.entries[d.id].at == Fin(d.at))
    && (forall id: nat :: id < |r.entries| && !r.entries[id].settled && r.entries[id].at.Fin? && id !in due ==>
          Deadline(id, r.entries[id].at.r) in r.deadlines.pending)
  }

  lemma FinishBut(r: Realm, due: seq<nat>)
    requires due != [] && PendingBut(r, due)
    ensures PendingBut(Expire(r, due[0]), due[1..])
  {
  }

  lemma {:induction false} ExpireDue(r: Realm, due: seq<nat>)
    requires InOrder(r) && Settling(r) && PendingBut(r, due) && Timed(r.deadlines)
    ensures var t := ExpireAll(r, due);
            OkInside(t) && (Pumping(r) ==> Pumping(t)) && |t.entries| == |r.entries| && t.waiting == r.waiting
            && (forall id :: id in due && id < |t.entries| ==> t.entries[id].settled)
            && (forall id :: 0 <= id < |r.entries| ==>
                  (r.entries[id].settled ==> t.entries[id].settled) && t.entries[id].at == r.entries[id].at)
    decreases |due|
  {
    hide InOrder, Settling, PendingBut;
    if due == [] {
      ButNone(r);
    } else {
      FinishBut(r, due);
      ExpireSettling(r, due[0]);
      ExpireDue(Expire(r, due[0]), due[1..]);
    }
  }

  lemma ButNone(r: Realm)
    requires PendingBut(r, [])
    ensures Pending(r)
  {
  }

  lemma ExpireSettling(r: Realm, id: nat)
    requires InOrder(r) && Settling(r)
    ensures var t := Expire(r, id);
            InOrder(t) && Settling(t) && (Pumping(r) ==> Pumping(t)) && |t.entries| == |r.entries| && t.waiting == r.waiting
            && (id < |t.entries| ==> t.entries[id].settled)
            && (forall j :: 0 <= j < |r.entries| ==> (r.entries[j].settled ==> t.entries[j].settled) && t.entries[j].at == r.entries[j].at)
  {
    FinishSettling(r, id);
  }

  lemma ArmTimed(q: Deadlines, now: real)
    ensures Timed(Arm(q, now))
  {
  }

  lemma TimerOk(r: Realm, now: real)
    requires Ok(r)
    ensures Ok(OnTimer(r, now)) && |OnTimer(r, now).entries| == |r.entries|
    ensures forall id :: 0 <= id < |r.entries| && r.entries[id].at.Fin? && r.entries[id].at.r - now < 1.0 ==>
              OnTimer(r, now).entries[id].settled
  {
    hide InOrder, Settling;
    var a := r.(deadlines := Arm(r.deadlines, now));
    ArmTimed(r.deadlines, now);
    SameButTimer(r, a);
    ExpireDue(a, Due(r.deadlines.pending, now));
  }

  lemma SameButTimer(r: Realm, a: Realm)
    requires InOrder(r) && Settling(r) && a == r.(deadlines := a.deadlines)
    ensures InOrder(a) && Settling(a)
  {
  }

  lemma AddTimed(q: Deadlines, d: Deadline, now: real)
    requires Timed(q)
    ensures Timed(Add(q, d, now).q)
  {
    ArmTimed(q.(pending := q.pending + [d]), now);
  }

  /** A bounded call's deadline added: it and what else is due may expire at once. */
  lemma BoundOk(r: Realm, id: nat, at: real, now: real)
    requires InOrder(r) && Settling(r.(waiting := r.waiting + [id])) && Timed(r.deadlines) && Pumping(r)
    requires id < |r.entries| && r.entries[id] == Entry(Fin(at), false, false) && PendingBut(r, [id])
    ensures var b := Bound(r, id, at, now);
            InOrder(b) && Settling(b.(waiting := b.waiting + [id])) && Pending(b) && Timed(b.deadlines) && Pumping(b)
            && b.waiting == r.waiting && b.started == r.started && (b.entries[id].settled ==> Settling(b))
            && !b.entries[id].invoked && b.entries[id].at == Fin(at)
  {
    hide InOrder;
    AddTimed(r.deadlines, Deadline(id, at), now);
    var added := Add(r.deadlines, Deadline(id, at), now);
    var m := r.(deadlines := added.q);
    AddedBut(r, id, at, now);
    InOrderTimer(r, m);
    ExpireNew(m, added.due, id);
  }

  lemma InOrderTimer(r: Realm, m: Realm)
    requires InOrder(r) && m == r.(deadlines := m.deadlines)
    ensures InOrder(m)
  {
  }

  lemma AddedBut(r: Realm, id: nat, at: real, now: real)
    requires id < |r.entries| && r.entries[id] == Entry(Fin(at), false, false) && PendingBut(r, [id])
    ensures var added := Add(r.deadlines, Deadline(id, at), now);
            PendingBut(r.(deadlines := added.q), added.due)
  {
  }

  /** Expiry with one call admitted and not yet queued. */
  lemma {:induction false} ExpireNew(r: Realm, due: seq<nat>, id: nat)
    requires InOrder(r) && Settling(r.(waiting := r.waiting + [id])) && PendingBut(r, due) && Timed(r.deadlines) && Pumping(r)
    requires id < |r.entries| && !r.entries[id].invoked
    ensures var t := ExpireAll(r, due);
            InOrder(t) && Settling(t.(waiting := t.waiting + [id])) && Pending(t) && Timed(t.deadlines) && Pumping(t)
            && t.waiting == r.waiting && t.started == r.started && |t.entries| == |r.entries|
            && !t.entries[id].invoked && t.entries[id].at == r.entries[id].at
            && (t.entries[id].settled ==> Settling(t))
    decreases |due|
  {
    hide InOrder, PendingBut;
    if due == [] {
      ButNone(r);
    } else {
      FinishBut(r, due);
      ExpireInOrder(r, due[0]);
      ExpireOther(r, due[0], id);
      ExpireNew(Expire(r, due[0]), due[1..], id);
    }
  }

  lemma ExpireInOrder(r: Realm, id: nat)
    requires InOrder(r)
    ensures InOrder(Expire(r, id)) && (Pumping(r) ==> Pumping(Expire(r, id))) && Expire(r, id).waiting == r.waiting
    ensures Expire(r, id).started == r.started
  {
  }

  lemma ExpireOther(r: Realm, other: nat, id: nat)
    requires Settling(r.(waiting := r.waiting + [id])) && id < |r.entries|
    ensures var t := Expire(r, other);
            Settling(t.(waiting := t.waiting + [id])) && |t.entries| == |r.entries|
            && t.entries[id].invoked == r.entries[id].invoked && t.entries[id].at == r.entries[id].at
  {
    FinishSettling(r.(waiting := r.waiting + [id]), other);
  }

  lemma AdmitOk(r: Realm, at: Ext, now: real)
    requires Ok(r) && at != NegInf
    ensures Ok(Admit(r, at, now))
  {
    hide Bound, Settling, Pending, PendingBut, InOrder, ExpireAll;
    var id := |r.entries|;
    var e := r.(entries := r.entries + [Entry(at, false, false)]);
    NewEntry(r, at);
    IdsBelow(r);
    if at.Fin? {
      BoundOk(e, id, at.r, now);
    } else {
      ButUnbounded(e, id);
    }
    var a := if at.Fin? then Bound(e, id, at.r, now) else e;
    if !a.entries[id].settled {
      QueueInOrder(a, id);
      PendingWaits(a, a.(waiting := a.waiting + [id]));
      PumpKeeps(a.(waiting := a.waiting + [id]));
    }
  }

  lemma IdsBelow(r: Realm)
    requires InOrder(r)
    ensures (forall i :: 0 <= i < |r.waiting| ==> r.waiting[i] < |r.entries|)
    ensures forall i :: 0 <= i < |r.started| ==> r.started[i].id < |r.entries|
  {
  }

  lemma NewEntry(r: Realm, at: Ext)
    requires InOrder(r) && Settling(r) && Pending(r)
    ensures var id := |r.entries|;
            var e := r.(entries := r.entries + [Entry(at, false, false)]);
            InOrder(e) && Settling(e.(waiting := e.waiting + [id])) && PendingBut(e, [id])
  {
    NewSettling(r, at);
  }

  lemma NewSettling(r: Realm, at: Ext)
    requires Settling(r)
    ensures var id := |r.entries|;
            Settling(r.(entries := r.entries + [Entry(at, false, false)], waiting := r.waiting + [id]))
  {
  }

  lemma ButUnbounded(r: Realm, id: nat)
    requires PendingBut(r, [id]) && id < |r.entries| && !r.entries[id].at.Fin?
    ensures Pending(r)
  {
  }

  lemma QueueInOrder(r: Realm, id: nat)
    requires InOrder(r) && |r.entries| == id + 1 && (forall i :: 0 <= i < |r.waiting| ==> r.waiting[i] < id)
    requires forall i :: 0 <= i < |r.started| ==> r.started[i].id < id
    ensures InOrder(r.(waiting := r.waiting + [id]))
  {
  }

  lemma PendingWaits(r: Realm, t: Realm)
    requires Pending(r) && t == r.(waiting := t.waiting, pumping := t.pumping)
    ensures Pending(t)
  {
  }

  lemma PumpKeeps(r: Realm)
    requires InOrder(r) && Settling(r) && Pending(r) && Timed(r.deadlines)
    ensures Ok(Pump(r))
  {
  }

  /** The front call taken off the queue, and settled or begun. */
  lemma EnterOk(r: Realm, now: real, g: Guest)
    requires OkInside(r)
    ensures var t := Enter(r, now, g);
            OkInside(t) && (t.running.None? ==> t.waiting == []) && t.pumping == r.pumping
    decreases |r.waiting|
  {
    hide OkInside, Finish;
    if r.running.None? && r.waiting != [] {
      var id, s := r.waiting[0], r.(waiting := r.waiting[1..]);
      FrontKnown(r);
      if s.entries[id].settled {
        SkipOk(r);
        EnterOk(s, now, g);
      } else if Le(s.entries[id].at, Fin(now)) || !g.ready(id) {
        FinishFront(r);
        EnterOk(Finish(s, id), now, g);
      } else {
        InvokeOk(r, now);
        var t := Invoke(s, id, now);
        if g.throws(id) {
          StopRunning(t);
          FinishOk(t.(running := None), id);
          EnterOk(Finish(t.(running := None), id), now, g);
        }
      }
    }
  }

  lemma FrontKnown(r: Realm)
    requires OkInside(r) && r.waiting != []
    ensures r.waiting[0] < |r.entries|
  {
  }

  lemma StopRunning(r: Realm)
    requires OkInside(r)
    ensures OkInside(r.(running := None))
  {
  }

  lemma SkipOk(r: Realm)
    requires OkInside(r) && r.waiting != [] && r.waiting[0] < |r.entries| && r.entries[r.waiting[0]].settled
    ensures OkInside(r.(waiting := r.waiting[1..]))
  {
    var s := r.(waiting := r.waiting[1..]);
    TailInOrder(r);
    TailSettling(r, r);
    assert Settling(s);
  }

  lemma TailInOrder(r: Realm)
    requires InOrder(r) && r.waiting != []
    ensures InOrder(r.(waiting := r.waiting[1..]))
    ensures forall i :: 0 <= i < |r.started| ==> r.started[i].id < r.waiting[0]
  {
  }

  /** Off the queue, once settled or begun. */
  lemma TailSettling(r: Realm, t: Realm)
    requires Settling(t) && t.waiting == r.waiting != [] && |t.entries| == |r.entries|
    requires r.waiting[0] < |t.entries| && (t.entries[r.waiting[0]].settled || t.entries[r.waiting[0]].invoked)
    ensures Settling(t.(waiting := r.waiting[1..]))
  {
    assert forall id :: id in r.waiting ==> id == r.waiting[0] || id in r.waiting[1..];
  }

  lemma FinishFront(r: Realm)
    requires OkInside(r) && r.waiting != [] && r.waiting[0] < |r.entries|
    ensures OkInside(Finish(r.(waiting := r.waiting[1..]), r.waiting[0]))
    ensures Finish(r.(waiting := r.waiting[1..]), r.waiting[0]).waiting == r.waiting[1..]
    ensures Finish(r.(waiting := r.waiting[1..]), r.waiting[0]).pumping == r.pumping
    ensures Finish(r.(waiting := r.waiting[1..]), r.waiting[0]).running == r.running
  {
    hide InOrder, Settling, Pending;
    var id := r.waiting[0];
    FinishOk(r, id);
    var f := Finish(r, id);
    TailInOrder(f);
    TailSettling(r, f);
    PendingWaits(f, f.(waiting := r.waiting[1..]));
    assert Finish(r.(waiting := r.waiting[1..]), id) == f.(waiting := r.waiting[1..]);
  }

  /** The front call begun, in order and in time. */
  lemma InvokeOk(r: Realm, now: real)
    requires OkInside(r) && r.waiting != [] && r.waiting[0] < |r.entries|
    requires !Le(r.entries[r.waiting[0]].at, Fin(now))
    ensures OkInside(Invoke(r.(waiting := r.waiting[1..]), r.waiting[0], now))
  {
    var id := r.waiting[0];
    var b := r.(entries := r.entries[id := r.entries[id].(invoked := true)]);
    TailInOrder(r);
    BegunSettling(r, id);
    TailSettling(r, b);
    BegunPending(r, id);
    BegunInOrder(r, now);
    hide Settling, Pending, InOrder;
    var t := Invoke(r.(waiting := r.waiting[1..]), id, now);
    SettlingSame(b.(waiting := r.waiting[1..]), t);
    PendingSame(b, t);
  }

  lemma BegunSettling(r: Realm, id: nat)
    requires Settling(r) && id < |r.entries|
    ensures Settling(r.(entries := r.entries[id := r.entries[id].(invoked := true)]))
  {
  }

  lemma BegunPending(r: Realm, id: nat)
    requires Pending(r) && id < |r.entries|
    ensures Pending(r.(entries := r.entries[id := r.entries[id].(invoked := true)]))
  {
  }

  lemma BegunInOrder(r: Realm, now: real)
    requires InOrder(r) && r.waiting != [] && r.waiting[0] < |r.entries| && !Le(r.entries[r.waiting[0]].at, Fin(now))
    ensures InOrder(Invoke(r.(waiting := r.waiting[1..]), r.waiting[0], now))
  {
    TailInOrder(r);
  }

  lemma SettlingSame(r: Realm, t: Realm)
    requires Settling(r) && t.entries == r.entries && t.settles == r.settles && t.waiting == r.waiting
    ensures Settling(t)
  {
  }

  lemma PendingSame(r: Realm, t: Realm)
    requires Pending(r) && t.entries == r.entries && t.deadlines == r.deadlines
    ensures Pending(t)
  {
  }

  lemma PumpedOk(r: Realm, now: real, g: Guest)
    requires Ok(r)
    ensures Ok(EnterNext(r, now, g))
  {
    hide InOrder, Settling, Pending, Enter;
    var s := r.(pumping := false);
    Unpumped(r);
    EnterOk(s, now, g);
  }

  lemma Unpumped(r: Realm)
    requires OkInside(r)
    ensures OkInside(r.(pumping := false))
  {
  }

  lemma StepOk(r: Realm, e: Event)
    requires Ok(r) && Possible(r, e)
    ensures Ok(Step(r, e))
  {
    hide InOrder, Settling, Pending, Finish, Enter, Admit, OnTimer;
    match e
    case Called(at, now) => AdmitOk(r, at, now);
    case Pumped(now, g) => PumpedOk(r, now, g);
    case Fired(now) => TimerOk(r, now);
    case Resulted(id) =>
      FinishOk(r, id);
      ReleaseOk(Finish(r, id), id);
    case Deferred(id) => ReleaseOk(r, id);
  }

  ghost predicate Run(rs: seq<Realm>, es: seq<Event>) {
    && |rs| == |es| + 1 && rs[0] == Idle()
    && forall i :: 0 <= i < |es| ==> Possible(rs[i], es[i]) && rs[i + 1] == Step(rs[i], es[i])
  }

  lemma {:induction false} AlwaysOk(rs: seq<Realm>, es: seq<Event>, n: nat)
    requires Run(rs, es) && n < |rs|
    ensures Ok(rs[n])
  {
    hide Ok, Step, Possible;
    if n == 0 {
      IdleOk();
    } else {
      AlwaysOk(rs, es, n - 1);
      StepOk(rs[n - 1], es[n - 1]);
    }
  }

  lemma IdleOk()
    ensures Ok(Idle())
  {
  }

  /** Over every run: a call settles at most once, and one that has not waits or was begun. */
  lemma SettlesOnce(rs: seq<Realm>, es: seq<Event>, n: nat)
    requires Run(rs, es) && n < |rs|
    ensures var r := rs[n];
            (forall i, j :: 0 <= i < j < |r.settles| ==> r.settles[i] != r.settles[j])
            && (forall id :: 0 <= id < |r.entries| ==> id in r.settles || id in r.waiting || r.entries[id].invoked)
  {
    AlwaysOk(rs, es, n);
  }

  /** Over every run: calls start in the order they were admitted, each before its deadline. */
  lemma StartsInOrder(rs: seq<Realm>, es: seq<Event>, n: nat)
    requires Run(rs, es) && n < |rs|
    ensures var r := rs[n];
            (forall i, j :: 0 <= i < j < |r.started| ==> r.started[i].id < r.started[j].id)
            && (forall i :: 0 <= i < |r.started| ==>
                  r.started[i].id < |r.entries| && Lt(Fin(r.started[i].time), r.entries[r.started[i].id].at))
  {
    AlwaysOk(rs, es, n);
  }

  /** Over every run: a free realm with calls waiting has a turn scheduled. */
  lemma NeverStuck(rs: seq<Realm>, es: seq<Event>, n: nat)
    requires Run(rs, es) && n < |rs|
    ensures rs[n].running.None? && rs[n].waiting != [] ==> rs[n].pumping
  {
    AlwaysOk(rs, es, n);
  }

  /** Over every run: a bounded call not settled has the timer set, for no later than a
      millisecond past its deadline; and a timer that fires settles all that are due. */
  lemma DeadlinesCovered(rs: seq<Realm>, es: seq<Event>, n: nat, id: nat)
    requires Run(rs, es) && n < |rs|
    requires id < |rs[n].entries| && !rs[n].entries[id].settled && rs[n].entries[id].at.Fin?
    ensures rs[n].deadlines.timerAt.Fin? && rs[n].deadlines.timerAt.r <= rs[n].entries[id].at.r + 1.0
    ensures n < |es| && es[n].Fired? && rs[n].entries[id].at.r - es[n].now < 1.0 ==>
              id < |rs[n + 1].entries| && rs[n + 1].entries[id].settled
  {
    AlwaysOk(rs, es, n);
    var r := rs[n];
    assert Deadline(id, r.entries[id].at.r) in r.deadlines.pending;
    if n < |es| && es[n].Fired? { TimerOk(r, es[n].now); }
  }
}
