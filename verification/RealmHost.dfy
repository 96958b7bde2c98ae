/** The realm queue's objects (WASM/host/realm-queue.ts:112-291): the deadline queue and the serialized
    realm, each method proved to do what RealmQueue's functions say; and the host calls that
    settle by a deadline, each settled by exactly one of its answer and its expiry. */
module RealmHosts {
  import opened Base
  import R = RealmQueue

  lemma MinAssoc(a: Ext, b: Ext, c: Ext)
    requires a != NegInf && b != NegInf && c != NegInf
    ensures ExtMin(a, ExtMin(b, c)) == ExtMin(ExtMin(a, b), c)
  {
  }

  lemma FirstMin(a: Ext)
    requires a != NegInf
    ensures ExtMin(PosInf, a) == a
  {
  }

  lemma LastMin(a: Ext)
    ensures ExtMin(a, PosInf) == a
  {
  }

  lemma ArmStep(ps: seq<R.Deadline>, i: nat, now: real)
    requires i < |ps|
    ensures R.Later(ps[i..], now) == (if R.IsDue(ps[i], now) then [] else [ps[i]]) + R.Later(ps[i + 1..], now)
    ensures R.Due(ps[i..], now) == (if R.IsDue(ps[i], now) then [ps[i].id] else []) + R.Due(ps[i + 1..], now)
    ensures R.Soonest(R.Later(ps[i..], now)) ==
              if R.IsDue(ps[i], now) then R.Soonest(R.Later(ps[i + 1..], now))
              else ExtMin(Fin(ps[i].at), R.Soonest(R.Later(ps[i + 1..], now)))
  {
    var l := R.Later(ps[i + 1..], now);
    assert ps[i..][1..] == ps[i + 1..] && ([ps[i]] + l)[1..] == l && [] + l == l;
  }

  lemma WithoutStep(ps: seq<R.Deadline>, i: nat, id: nat)
    requires i < |ps|
    ensures R.Without(ps[i..], id) == (if ps[i].id == id then [] else [ps[i]]) + R.Without(ps[i + 1..], id)
  {
    assert ps[i..][1..] == ps[i + 1..];
  }

  lemma Empties(ps: seq<R.Deadline>, now: real, id: nat)
    ensures ps[0..] == ps && ps[|ps|..] == []
    ensures R.Later([], now) == [] && R.Due([], now) == [] && R.Without([], id) == [] && R.Soonest([]) == PosInf
  {
  }

  class DeadlineQueue {
    var pending: seq<R.Deadline>
    var timerAt: Ext

    ghost function View(): R.Deadlines
      reads this
    {
      R.Deadlines(pending, timerAt)
    }

    constructor ()
      ensures View() == R.Deadlines([], PosInf)
    {
      pending, timerAt := [], PosInf;
    }

    /** Take out what is due, to be expired in order, and set the timer for the rest. */
    method Arm(now: real) returns (due: seq<nat>)
      modifies this
      ensures View() == R.Arm(old(View()), now) && due == R.Due(old(pending), now)
    {
      hide R.Later, R.Due, R.Soonest, ExtMin;
      var left: seq<R.Deadline>, soonest, i := [], PosInf, 0;
      due := [];
      Empties(pending, now, 0);
      FirstMin(R.Soonest(R.Later(pending, now)));
      while i < |pending|
        invariant 0 <= i <= |pending| && View() == old(View()) && soonest != NegInf
        invariant R.Later(pending, now) == left + R.Later(pending[i..], now)
        invariant R.Due(pending, now) == due + R.Due(pending[i..], now)
        invariant R.Soonest(R.Later(pending, now)) == ExtMin(soonest, R.Soonest(R.Later(pending[i..], now)))
      {
        var d := pending[i];
        ArmStep(pending, i, now);
        if d.at - now >= 1.0 {
          MinAssoc(soonest, Fin(d.at), R.Soonest(R.Later(pending[i + 1..], now)));
          soonest := ExtMin(soonest, Fin(d.at));
          left := left + [d];
        } else {
          due := due + [d.id];
        }
        i := i + 1;
      }
      LastMin(soonest);
      pending := left;
      timerAt := if soonest == PosInf then PosInf else ExtMin(soonest, Fin(now + R.MAX_TIMER));
    }

    /** What a new deadline expires, if it has the timer set again: perhaps itself. */
    method Add(d: R.Deadline, now: real) returns (due: seq<nat>)
      modifies this
      ensures var a := R.Add(old(View()), d, now); View() == a.q && due == a.due
    {
      pending := pending + [d];
      due := [];
      if timerAt == PosInf || (timerAt.Fin? && d.at < timerAt.r - 1.0) {
        due := Arm(now);
      }
    }

    method Drop(id: nat)
      modifies this
      ensures View() == R.Drop(old(View()), id)
    {
      hide R.Without;
      var left: seq<R.Deadline>, i := [], 0;
      Empties(pending, 0.0, id);
      while i < |pending|
        invariant 0 <= i <= |pending| && View() == old(View())
        invariant R.Without(pending, id) == left + R.Without(pending[i..], id)
      {
        WithoutStep(pending, i, id);
        if pending[i].id != id {
          left := left + [pending[i]];
        }
        i := i + 1;
      }
      assert left + [] == left;
      pending := left;
    }
  }

  /** `serializeCalls`: the closure's variables are the fields. */
  class SerializedRealm {
    var entries: seq<R.Entry>
    var waiting: seq<nat>
    var running: Option<nat>
    var pumping: bool
    const deadlines: DeadlineQueue
    ghost var started: seq<R.Start>
    ghost var settles: seq<nat>

    ghost function View(): R.Realm
      reads this, deadlines
    {
      R.Realm(entries, waiting, running, pumping, deadlines.View(), started, settles)
    }

    constructor ()
      ensures View() == R.Idle() && R.Ok(View()) && fresh(deadlines)
    {
      entries, waiting, running, pumping, started, settles := [], [], None, false, [], [];
      deadlines := new DeadlineQueue();
      new;
      R.IdleOk();
    }

    /** Settle the caller once. */
    method Finish(id: nat)
      modifies `entries, `settles, deadlines
      ensures View() == R.Finish(old(View()), id) && |entries| == |old(entries)|
    {
      if id >= |entries| || entries[id].settled {
        return;
      }
      entries := entries[id := entries[id].(settled := true)];
      deadlines.Drop(id);
      settles := settles + [id];
    }

    /** Schedule EnterNext, unless it is scheduled already or has nothing to do. */
    method Pump()
      modifies `pumping
      ensures View() == R.Pump(old(View()))
    {
      if pumping || running.Some? || waiting == [] {
        return;
      }
      pumping := true;
    }

    method Release(id: nat)
      modifies `running, `pumping
      ensures View() == R.Release(old(View()), id)
    {
      if running != Some(id) {
        return;
      }
      running := None;
      Pump();
    }

    method Expire(id: nat)
      modifies `entries, `settles, `running, `pumping, deadlines
      ensures View() == R.Expire(old(View()), id) && |entries| == |old(entries)|
    {
      Finish(id);
      Release(id);
    }

    method ExpireAll(due: seq<nat>)
      modifies `entries, `settles, `running, `pumping, deadlines
      ensures View() == R.ExpireAll(old(View()), due) && |entries| == |old(entries)|
    {
      hide R.Expire;
      var i := 0;
      assert due[0..] == due;
      while i < |due|
        invariant 0 <= i <= |due| && |entries| == |old(entries)|
        invariant R.ExpireAll(View(), due[i..]) == R.ExpireAll(old(View()), due)
      {
        assert due[i..][1..] == due[i + 1..];
        Expire(due[i]);
        i := i + 1;
      }
    }

    /** Enter the next call that has not settled and has time left. */
    method EnterNext(now: real, g: R.Guest)
      requires R.Ok(View())
      modifies this, deadlines
      ensures R.Ok(View()) && View() == R.EnterNext(old(View()), now, g)
    {
      hide R.Finish, R.Ok;
      R.PumpedOk(View(), now, g);
      pumping := false;
      while running.None? && waiting != []
        invariant R.Enter(View(), now, g) == R.EnterNext(old(View()), now, g)
        decreases |waiting|
      {
        var id := waiting[0];
        waiting := waiting[1..];
        if id >= |entries| || entries[id].settled {
          continue;
        }
        // The timer may be late, and this must not be.
        if Le(entries[id].at, Fin(now)) || !g.ready(id) {
          Finish(id);
          continue;
        }
        running := Some(id);
        entries := entries[id := entries[id].(invoked := true)];
        started := started + [R.Start(id, now)];
        if g.throws(id) {
          running := None;
          Finish(id);
        }
      }
    }

    /** Admit one call under a deadline, PosInf for none. */
    method Call(at: Ext, now: real) returns (id: nat)
      requires R.Ok(View()) && at != NegInf
      modifies this, deadlines
      ensures R.Ok(View()) && View() == R.Admit(old(View()), at, now) && id == |old(entries)|
    {
      hide R.Ok, R.ExpireAll, R.Add;
      R.AdmitOk(View(), at, now);
      id := |entries|;
      entries := entries + [R.Entry(at, false, false)];
      if at.Fin? {
        var due := deadlines.Add(R.Deadline(id, at.r), now);
        ExpireAll(due);
      }
      // Settled means the deadline had passed as it was added.
      if !entries[id].settled {
        waiting := waiting + [id];
        Pump();
      }
    }

    method OnTimer(now: real)
      requires R.Ok(View())
      modifies this, deadlines
      ensures R.Ok(View()) && View() == R.OnTimer(old(View()), now)
    {
      hide R.Ok, R.ExpireAll, R.Arm, R.Due;
      R.TimerOk(View(), now);
      var due := deadlines.Arm(now);
      ExpireAll(due);
    }

    method OnResult(id: nat)
      requires R.Ok(View()) && id < |entries| && entries[id].invoked
      modifies this, deadlines
      ensures R.Ok(View()) && View() == R.OnResult(old(View()), id)
    {
      hide R.Ok;
      R.StepOk(View(), R.Resulted(id));
      Finish(id);
      Release(id);
    }

    /** A deferred call's synchronous part is over. */
    method OnDeferred(id: nat)
      requires R.Ok(View()) && id < |entries| && entries[id].invoked
      modifies this
      ensures R.Ok(View()) && View() == R.Release(old(View()), id)
    {
      hide R.Ok;
      R.StepOk(View(), R.Deferred(id));
      Release(id);
    }
  }
}

/** `settleByDeadline`: a host call settles by its answer or its deadline, whichever takes the
    deadline out of its queue; expiry settles on a microtask. */
module HostCalls {
  import opened Base
  import opened RealmQueue

  /** `issued` calls so far; the deadlines pending; the calls with none; the expired whose
      microtask has yet to run; and, as history, the calls settled. */
  datatype Calls = Calls(issued: nat, deadlines: Deadlines, unbounded: seq<nat>, expired: seq<nat>, settles: seq<nat>)

  datatype Happening =
    | Issued(at: Ext, now: real)
    | Answered(id: nat)
    | TimerFired(now: real)
    | MicrotaskRan

  function Remove(s: seq<nat>, id: nat): seq<nat> {
    if s == [] then [] else if s[0] == id then s[1..] else [s[0]] + Remove(s[1..], id)
  }

  function Ids(ps: seq<Deadline>): seq<nat> { if ps == [] then [] else [ps[0].id] + Ids(ps[1..]) }

  function Happen(c: Calls, h: Happening): Calls {
    match h
    case Issued(at, now) =>
      if at.Fin? then
        var a := Add(c.deadlines, Deadline(c.issued, at.r), now);
        c.(issued := c.issued + 1, deadlines := a.q, expired := c.expired + a.due)
      else c.(issued := c.issued + 1, unbounded := c.unbounded + [c.issued])
    case Answered(id) =>
      if id in c.unbounded then c.(unbounded := Remove(c.unbounded, id), settles := c.settles + [id])
      else if id in Ids(c.deadlines.pending) then c.(deadlines := Drop(c.deadlines, id), settles := c.settles + [id])
      else c
    case TimerFired(now) => c.(deadlines := Arm(c.deadlines, now), expired := c.expired + Due(c.deadlines.pending, now))
    case MicrotaskRan =>
      if c.expired == [] then c else c.(expired := c.expired[1..], settles := c.settles + [c.expired[0]])
  }

  function Count(s: seq<nat>, id: nat): nat { if s == [] then 0 else (if s[0] == id then 1 else 0) + Count(s[1..], id) }

  function Places(c: Calls, id: nat): nat {
    Count(Ids(c.deadlines.pending), id) + Count(c.unbounded, id) + Count(c.expired, id) + Count(c.settles, id)
  }

  /** Every call issued is in just one place, once. */
  ghost predicate Conserved(c: Calls) { forall id: nat :: Places(c, id) == if id < c.issued then 1 else 0 }

  lemma {:induction false} CountConcat(a: seq<nat>, b: seq<nat>, id: nat)
    ensures Count(a + b, id) == Count(a, id) + Count(b, id)
  {
    if a == [] {
      assert a + b == b;
    } else {
      assert (a + b)[1..] == a[1..] + b;
      CountConcat(a[1..], b, id);
    }
  }

  lemma CountSnoc(a: seq<nat>, x: nat, id: nat)
    ensures Count(a + [x], id) == Count(a, id) + if x == id then 1 else 0
  {
    CountConcat(a, [x], id);
    assert [x][1..] == [];
  }

  lemma {:induction false} CountIn(s: seq<nat>, id: nat)
    ensures id in s <==> Count(s, id) > 0
  {
    if s != [] { CountIn(s[1..], id); }
  }

  lemma {:induction false} IdsSnoc(ps: seq<Deadline>, d: Deadline)
    ensures Ids(ps + [d]) == Ids(ps) + [d.id]
  {
    if ps != [] {
      assert (ps + [d])[1..] == ps[1..] + [d];
      IdsSnoc(ps[1..], d);
    }
  }

  lemma IdsFront(d: Deadline, ps: seq<Deadline>)
    ensures Ids([d] + ps) == [d.id] + Ids(ps)
  {
    assert ([d] + ps)[1..] == ps;
  }

  lemma CountFront(x: nat, s: seq<nat>, id: nat)
    ensures Count([x] + s, id) == (if x == id then 1 else 0) + Count(s, id)
  {
    assert ([x] + s)[1..] == s;
  }

  lemma SweepFront(ps: seq<Deadline>, now: real)
    requires ps != []
    ensures var id, due := ps[0].id, IsDue(ps[0], now);
            && Ids(ps) == [id] + Ids(ps[1..])
            && Ids(Later(ps, now)) == (if due then [] else [id]) + Ids(Later(ps[1..], now))
            && Due(ps, now) == (if due then [id] else []) + Due(ps[1..], now)
  {
    IdsFront(ps[0], Later(ps[1..], now));
    assert [] + Later(ps[1..], now) == Later(ps[1..], now);
  }

  /** A timer's sweep: what was pending is still, or is due. */
  lemma {:induction false} SplitConserves(ps: seq<Deadline>, now: real, id: nat)
    ensures Count(Ids(Later(ps, now)), id) + Count(Due(ps, now), id) == Count(Ids(ps), id)
  {
    if ps != [] {
      SplitConserves(ps[1..], now, id);
      SweepFront(ps, now);
      hide Later, Due, Ids, Count;
      var l, d := Ids(Later(ps[1..], now)), Due(ps[1..], now);
      CountFront(ps[0].id, l, id);
      CountFront(ps[0].id, d, id);
      CountFront(ps[0].id, Ids(ps[1..]), id);
      assert [] + l == l && [] + d == d;
    }
  }

  lemma {:induction false} RemoveOne(s: seq<nat>, x: nat, id: nat)
    requires x in s
    ensures Count(Remove(s, x), id) + (if x == id then 1 else 0) == Count(s, id)
  {
    if s[0] != x {
      RemoveOne(s[1..], x, id);
      CountFront(s[0], Remove(s[1..], x), id);
    }
  }

  /** A deadline dropped takes out its call's, and no other. */
  lemma {:induction false} DropCounts(ps: seq<Deadline>, x: nat, id: nat)
    ensures Count(Ids(Without(ps, x)), id) == if x == id then 0 else Count(Ids(ps), id)
  {
    if ps != [] {
      var w := Without(ps[1..], x);
      DropCounts(ps[1..], x, id);
      IdsFront(ps[0], w);
      CountFront(ps[0].id, Ids(w), id);
      assert [] + w == w;
    }
  }

  lemma HappenPlaces(c: Calls, h: Happening, id: nat)
    requires Conserved(c)
    ensures Places(Happen(c, h), id) == if id < Happen(c, h).issued then 1 else 0
  {
    hide Count, Ids, Later, Due, Without, Remove;
    assert Places(c, id) == if id < c.issued then 1 else 0;
    match h
    case Issued(at, now) =>
      if at.Fin? {
        var d := Deadline(c.issued, at.r);
        var more := c.deadlines.pending + [d];
        IdsSnoc(c.deadlines.pending, d);
        CountSnoc(Ids(c.deadlines.pending), c.issued, id);
        SplitConserves(more, now, id);
        CountConcat(c.expired, Due(more, now), id);
        assert c.expired + [] == c.expired;
      } else {
        CountSnoc(c.unbounded, c.issued, id);
      }
    case Answered(x) =>
      CountSnoc(c.settles, x, id);
      if x in c.unbounded {
        RemoveOne(c.unbounded, x, id);
      } else if x in Ids(c.deadlines.pending) {
        PendingOnce(c, x);
        DropCounts(c.deadlines.pending, x, id);
      }
    case TimerFired(now) =>
      SplitConserves(c.deadlines.pending, now, id);
      CountConcat(c.expired, Due(c.deadlines.pending, now), id);
    case MicrotaskRan =>
      if c.expired != [] {
        CountSnoc(c.settles, c.expired[0], id);
        CountFront(c.expired[0], c.expired[1..], id);
        assert c.expired == [c.expired[0]] + c.expired[1..];
      }
  }

  lemma PendingOnce(c: Calls, x: nat)
    requires Conserved(c) && x in Ids(c.deadlines.pending)
    ensures Count(Ids(c.deadlines.pending), x) == 1
  {
    CountIn(Ids(c.deadlines.pending), x);
    assert Places(c, x) <= 1;
  }

  lemma HappenConserves(c: Calls, h: Happening)
    requires Conserved(c)
    ensures Conserved(Happen(c, h))
  {
    forall id: nat ensures Places(Happen(c, h), id) == if id < Happen(c, h).issued then 1 else 0 { HappenPlaces(c, h, id); }
  }

  function Trace(c: Calls, hs: seq<Happening>): Calls
    decreases |hs|
  {
    if hs == [] then c else Trace(Happen(c, hs[0]), hs[1..])
  }

  lemma {:induction false} AlwaysConserved(c: Calls, hs: seq<Happening>)
    requires Conserved(c)
    ensures Conserved(Trace(c, hs))
    decreases |hs|
  {
    hide Conserved, Happen;
    if hs != [] {
      HappenConserves(c, hs[0]);
      AlwaysConserved(Happen(c, hs[0]), hs[1..]);
    }
  }

  /** In every run each call settles at most once, and until it has it is pending, waits with no
      deadline, or has its microtask to come: whoever takes the deadline out settles it. */
  lemma SettledOnce(hs: seq<Happening>, id: nat)
    ensures var c := Trace(Calls(0, Deadlines([], PosInf), [], [], []), hs);
            Count(c.settles, id) <= 1
            && (id < c.issued ==>
                  (id in c.settles <==> id !in Ids(c.deadlines.pending) && id !in c.unbounded && id !in c.expired))
  {
    var start := Calls(0, Deadlines([], PosInf), [], [], []);
    AlwaysConserved(start, hs);
    var c := Trace(start, hs);
    hide Count, Ids, Trace, Happen;
    assert Places(c, id) == if id < c.issued then 1 else 0;
    CountIn(c.settles, id);
    CountIn(Ids(c.deadlines.pending), id);
    CountIn(c.unbounded, id);
    CountIn(c.expired, id);
  }

  /** An answer in time settles its call at once; one that comes after the deadline was taken out
      changes nothing. */
  lemma AnswerSettles(hs: seq<Happening>, id: nat)
    ensures var c := Trace(Calls(0, Deadlines([], PosInf), [], [], []), hs);
            var t := Happen(c, Answered(id));
            if id in c.unbounded || id in Ids(c.deadlines.pending) then
              t.settles == c.settles + [id] && id !in t.unbounded && id !in Ids(t.deadlines.pending) && t.expired == c.expired
            else t == c
  {
    var start := Calls(0, Deadlines([], PosInf), [], [], []);
    AlwaysConserved(start, hs);
    var c := Trace(start, hs);
    hide Trace;
    HappenPlaces(c, Answered(id), id);
    var t := Happen(c, Answered(id));
    CountIn(c.unbounded, id);
    CountIn(Ids(c.deadlines.pending), id);
    CountSnoc(c.settles, id, id);
    CountIn(t.unbounded, id);
    CountIn(Ids(t.deadlines.pending), id);
  }

  /** The calls whose deadlines passed settle with their microtasks, in turn; and the timer takes out
      none early. */
  lemma ExpirySettles(c: Calls, now: real)
    ensures c.expired != [] ==>
              Happen(c, MicrotaskRan).settles == c.settles + [c.expired[0]] && Happen(c, MicrotaskRan).expired == c.expired[1..]
    ensures forall d :: d in c.deadlines.pending && d.at - now >= 1.0 ==> d in Happen(c, TimerFired(now)).deadlines.pending
    ensures forall id :: id in Happen(c, TimerFired(now)).expired ==>
              id in c.expired || exists d :: d in c.deadlines.pending && d.id == id && d.at - now < 1.0
  {
  }

  /** The timer covers what is pending, as it does for a realm's calls. */
  lemma HappenTimed(c: Calls, h: Happening)
    requires Timed(c.deadlines)
    ensures Timed(Happen(c, h).deadlines)
  {
    match h
    case Issued(at, now) => if at.Fin? { AddTimed(c.deadlines, Deadline(c.issued, at.r), now); }
    case Answered(_) =>
    case TimerFired(now) => ArmTimed(c.deadlines, now);
    case MicrotaskRan =>
  }

  lemma {:induction false} AlwaysTimed(c: Calls, hs: seq<Happening>)
    requires Timed(c.deadlines)
    ensures Timed(Trace(c, hs).deadlines)
    decreases |hs|
  {
    hide Timed, Happen;
    if hs != [] {
      HappenTimed(c, hs[0]);
      AlwaysTimed(Happen(c, hs[0]), hs[1..]);
    }
  }

  /** In every run a host call's deadline still pending has the timer set, for no later than a
      millisecond past it; and a timer that fires by then leaves it pending no more. */
  lemma HostDeadlinesCovered(hs: seq<Happening>, d: Deadline, now: real)
    requires d in Trace(Calls(0, Deadlines([], PosInf), [], [], []), hs).deadlines.pending
    ensures var c := Trace(Calls(0, Deadlines([], PosInf), [], [], []), hs);
            && Le(c.deadlines.timerAt, Fin(d.at + 1.0))
            && (d.at - now < 1.0 ==>
                  d !in Happen(c, TimerFired(now)).deadlines.pending && d.id in Happen(c, TimerFired(now)).expired)
  {
    AlwaysTimed(Calls(0, Deadlines([], PosInf), [], [], []), hs);
  }
}
