/** What becomes of a call (WASM/host/realm-queue.ts:101-135, 205-302): which event settles it, which
    starts it, and when the realm is free again, for every event of every run. */
module RealmOutcomes {
  import opened Base
  import opened RealmQueue

  // ── an answer ────────────────────────────────────────────────────────────────────────

  /** A result settles its call, if nothing has, and frees the realm if that call had it; nothing
      else of any call changes. */
  lemma ResultSettles(rs: seq<Realm>, es: seq<Event>, n: nat)
    requires Run(rs, es) && n < |es| && es[n].Resulted?
    ensures var r, t, id := rs[n], rs[n + 1], es[n].id;
            && id in t.settles && t.running != Some(id) && (r.running != Some(id) ==> t.running == r.running)
            && t.settles == (if id in r.settles then r.settles else r.settles + [id])
            && t.waiting == r.waiting && t.started == r.started && |t.entries| == |r.entries|
            && (forall j: nat :: j < |r.entries| && j != id ==> t.entries[j] == r.entries[j])
            && (t.running.None? && t.waiting != [] ==> t.pumping)
  {
    hide InOrder, Pending, Timed;
    AlwaysOk(rs, es, n);
    AlwaysOk(rs, es, n + 1);
  }

  /** The end of a call's own turn frees the realm if it still had it, and settles nothing. */
  lemma DeferralFrees(rs: seq<Realm>, es: seq<Event>, n: nat)
    requires Run(rs, es) && n < |es| && es[n].Deferred?
    ensures var r, t, id := rs[n], rs[n + 1], es[n].id;
            && t.running != Some(id) && (r.running != Some(id) ==> t.running == r.running)
            && t.settles == r.settles && t.entries == r.entries && t.waiting == r.waiting && t.started == r.started
            && (t.running.None? && t.waiting != [] ==> t.pumping)
  {
    hide InOrder, Settling, Pending, Timed;
    AlwaysOk(rs, es, n + 1);
  }

  // ── the turn that gives the realm to the next call ───────────────────────────────────

  /** A call that may start: not settled, in time, and the realm ready for it. */
  predicate Startable(r: Realm, now: real, g: Guest, id: nat) {
    id < |r.entries| && !r.entries[id].settled && Lt(Fin(now), r.entries[id].at) && g.ready(id)
  }

  /** Whether the realm is given to it for good: it starts, and does not throw. */
  predicate Stays(r: Realm, now: real, g: Guest, id: nat) { Startable(r, now, g, id) && !g.throws(id) }

  /** The calls taken off the queue: up to the first that stays, or all of them. */
  ghost predicate TakesUpTo(r: Realm, now: real, g: Guest, k: nat) {
    && k <= |r.waiting|
    && (forall i :: 0 <= i < k - 1 ==> !Stays(r, now, g, r.waiting[i]))
    && (k < |r.waiting| ==> k > 0 && Stays(r, now, g, r.waiting[k - 1]))
  }

  /** What the turn makes of the calls it takes, in order. */
  function StartsOf(r: Realm, now: real, g: Guest, ids: seq<nat>): seq<Start> {
    if ids == [] then [] else (if Startable(r, now, g, ids[0]) then [Start(ids[0], now)] else []) + StartsOf(r, now, g, ids[1..])
  }

  function SettlesOf(r: Realm, now: real, g: Guest, ids: seq<nat>): seq<nat> {
    if ids == [] then []
    else
      (if ids[0] < |r.entries| && !r.entries[ids[0]].settled && !Stays(r, now, g, ids[0]) then [ids[0]] else [])
      + SettlesOf(r, now, g, ids[1..])
  }

  /** One call taken off, and the rest judged as before. */
  ghost predicate SameLater(r: Realm, t: Realm, ids: seq<nat>) {
    |t.entries| == |r.entries| && forall id :: id in ids && id < |r.entries| ==> t.entries[id] == r.entries[id]
  }

  lemma {:induction false} JudgedSame(r: Realm, t: Realm, now: real, g: Guest, ids: seq<nat>)
    requires SameLater(r, t, ids)
    ensures StartsOf(t, now, g, ids) == StartsOf(r, now, g, ids) && SettlesOf(t, now, g, ids) == SettlesOf(r, now, g, ids)
    decreases |ids|
  {
    if ids != [] {
      assert ids[0] in ids;
      assert forall id :: id in ids[1..] ==> id in ids;
      JudgedSame(r, t, now, g, ids[1..]);
    }
  }

  ghost predicate Ascending(ids: seq<nat>) { forall i, j :: 0 <= i < j < |ids| ==> ids[i] < ids[j] }

  /** What becomes of the front call: skipped if settled, else settled unstarted, started and settled,
      or started and left with the realm. */
  ghost predicate FrontGone(r: Realm, t: Realm, now: real, g: Guest)
    requires r.waiting != [] && r.waiting[0] < |r.entries|
  {
    var id, rest := r.waiting[0], r.waiting[1..];
    && SameLater(r, t, rest) && t.waiting == rest && t.pumping == r.pumping
    && t.started == r.started + (if Startable(r, now, g, id) then [Start(id, now)] else [])
    && t.settles == r.settles + (if !r.entries[id].settled && !Stays(r, now, g, id) then [id] else [])
    && t.running == (if Stays(r, now, g, id) then Some(id) else None)
    && Enter(r, now, g) == (if Stays(r, now, g, id) then t else Enter(t, now, g))
  }

  lemma FrontFate(r: Realm, now: real, g: Guest) returns (t: Realm)
    requires r.running.None? && r.waiting != [] && Ascending(r.waiting) && r.waiting[0] < |r.entries|
    ensures FrontGone(r, t, now, g)
  {
    hide Drop, Pump;
    var id, s := r.waiting[0], r.(waiting := r.waiting[1..]);
    assert forall j :: 0 <= j < |s.waiting| ==> s.waiting[j] == r.waiting[j + 1];
    t := if s.entries[id].settled then s
         else if Le(s.entries[id].at, Fin(now)) || !g.ready(id) then Finish(s, id)
         else if g.throws(id) then Finish(Invoke(s, id, now).(running := None), id) else Invoke(s, id, now);
    assert id !in s.waiting;
    assert SameLater(r, t, s.waiting);
    assert t.started == r.started + (if Startable(r, now, g, id) then [Start(id, now)] else []);
    assert Enter(r, now, g) == if Stays(r, now, g, id) then t else Enter(t, now, g);
  }

  ghost predicate Known(r: Realm) { forall i :: 0 <= i < |r.waiting| ==> r.waiting[i] < |r.entries| }

  /** What a turn leaves, having taken the first `k` calls. */
  ghost predicate TurnLeaves(r: Realm, t: Realm, now: real, g: Guest, k: nat) {
    && TakesUpTo(r, now, g, k) && t.waiting == r.waiting[k..] && t.pumping == r.pumping
    && t.started == r.started + StartsOf(r, now, g, r.waiting[..k])
    && t.settles == r.settles + SettlesOf(r, now, g, r.waiting[..k])
    && t.running == (if k > 0 && Stays(r, now, g, r.waiting[k - 1]) then Some(r.waiting[k - 1]) else None)
  }

  lemma {:induction false} EnterExact(r: Realm, now: real, g: Guest) returns (k: nat)
    requires r.running.None? && Ascending(r.waiting) && Known(r)
    ensures TurnLeaves(r, Enter(r, now, g), now, g, k)
    decreases |r.waiting|
  {
    if r.waiting == [] {
      k := 0;
      NothingTaken(r, now, g);
    } else {
      var t := FrontFate(r, now, g);
      TailKnown(r, t);
      hide Enter, Stays, Startable, SameLater, Ascending, Known, TurnLeaves;
      if Stays(r, now, g, r.waiting[0]) {
        k := 1;
        OneTaken(r, t, now, g);
      } else {
        var j := EnterExact(t, now, g);
        k := j + 1;
        MoreTaken(r, t, Enter(t, now, g), now, g, j);
      }
    }
  }

  lemma TailKnown(r: Realm, t: Realm)
    requires r.waiting != [] && Ascending(r.waiting) && Known(r) && t.waiting == r.waiting[1..] && |t.entries| == |r.entries|
    ensures Ascending(t.waiting) && Known(t)
  {
    forall i | 0 <= i < |t.waiting| ensures t.waiting[i] == r.waiting[i + 1] {}
  }

  lemma NothingTaken(r: Realm, now: real, g: Guest)
    requires r.running.None? && r.waiting == []
    ensures TurnLeaves(r, r, now, g, 0)
  {
    assert r.waiting[..0] == [] && r.started + [] == r.started && r.settles + [] == r.settles;
  }

  function StartOf(r: Realm, now: real, g: Guest, id: nat): seq<Start> {
    if Startable(r, now, g, id) then [Start(id, now)] else []
  }

  function SettleOf(r: Realm, now: real, g: Guest, id: nat): seq<nat> {
    if id < |r.entries| && !r.entries[id].settled && !Stays(r, now, g, id) then [id] else []
  }

  lemma FirstJudged(r: Realm, now: real, g: Guest, ids: seq<nat>)
    requires ids != []
    ensures StartsOf(r, now, g, ids) == StartOf(r, now, g, ids[0]) + StartsOf(r, now, g, ids[1..])
    ensures SettlesOf(r, now, g, ids) == SettleOf(r, now, g, ids[0]) + SettlesOf(r, now, g, ids[1..])
  {
  }

  lemma OneTaken(r: Realm, t: Realm, now: real, g: Guest)
    requires r.waiting != [] && r.waiting[0] < |r.entries| && Stays(r, now, g, r.waiting[0]) && FrontGone(r, t, now, g)
    ensures TurnLeaves(r, t, now, g, 1)
  {
    var ids := r.waiting[..1];
    FirstJudged(r, now, g, ids);
    assert ids[1..] == [] && StartsOf(r, now, g, []) == [] && SettlesOf(r, now, g, []) == [];
    hide Enter, StartsOf, SettlesOf;
    assert r.started + (StartOf(r, now, g, ids[0]) + []) == r.started + StartOf(r, now, g, ids[0]);
    assert r.settles + (SettleOf(r, now, g, ids[0]) + []) == r.settles + SettleOf(r, now, g, ids[0]);
  }

  lemma TakesMore(r: Realm, t: Realm, now: real, g: Guest, j: nat)
    requires r.waiting != [] && !Stays(r, now, g, r.waiting[0])
    requires SameLater(r, t, r.waiting[1..]) && t.waiting == r.waiting[1..] && TakesUpTo(t, now, g, j)
    requires forall i :: 0 <= i < |r.waiting| ==> r.waiting[i] < |r.entries|
    ensures TakesUpTo(r, now, g, j + 1)
    ensures forall i :: 0 <= i < |t.waiting| ==> (Stays(t, now, g, t.waiting[i]) <==> Stays(r, now, g, r.waiting[i + 1]))
  {
    forall i | 0 <= i < |t.waiting| ensures Stays(t, now, g, t.waiting[i]) <==> Stays(r, now, g, r.waiting[i + 1]) {
      assert t.waiting[i] in t.waiting;
    }
  }

  lemma MoreTaken(r: Realm, t: Realm, u: Realm, now: real, g: Guest, j: nat)
    requires r.waiting != [] && Known(r) && !Stays(r, now, g, r.waiting[0]) && FrontGone(r, t, now, g)
    requires TurnLeaves(t, u, now, g, j)
    ensures TurnLeaves(r, u, now, g, j + 1)
  {
    hide Enter, StartsOf, SettlesOf;
    var taken, later := r.waiting[..j + 1], t.waiting[..j];
    assert taken[0] == r.waiting[0] && taken[1..] == later;
    TakesMore(r, t, now, g, j);
    forall x | x in later ensures x in t.waiting {}
    JudgedSame(r, t, now, g, later);
    FirstJudged(r, now, g, taken);
    hide Stays, Startable, SameLater, TakesUpTo;
    Joins(r.started, StartOf(r, now, g, taken[0]), StartsOf(r, now, g, later));
    Joins(r.settles, SettleOf(r, now, g, taken[0]), SettlesOf(r, now, g, later));
  }

  lemma Joins<T>(a: seq<T>, b: seq<T>, c: seq<T>)
    ensures a + (b + c) == a + b + c
  {
  }

  /** A scheduled turn at a free realm takes calls from the front until one stays. Each was settled
      before, is settled unstarted where its time is up or the realm is not ready for it, is started
      and settled where it throws, or is started and has the realm; none is passed over. */
  lemma TurnTakes(rs: seq<Realm>, es: seq<Event>, n: nat) returns (k: nat)
    requires Run(rs, es) && n < |es| && es[n].Pumped?
    ensures rs[n].running.Some? ==> rs[n + 1] == rs[n].(pumping := false)
    ensures rs[n].running.None? ==>
              TurnLeaves(rs[n].(pumping := false), rs[n + 1], es[n].now, es[n].g, k)
              && (rs[n + 1].running.None? ==> rs[n + 1].waiting == [])
  {
    hide Settling, Pending, Timed;
    AlwaysOk(rs, es, n);
    var r := rs[n].(pumping := false);
    k := 0;
    if r.running.None? { k := EnterExact(r, es[n].now, es[n].g); }
  }

  // ── time running out ─────────────────────────────────────────────────────────────────

  lemma {:induction false} ExpireOnly(r: Realm, ids: seq<nat>)
    ensures var t := ExpireAll(r, ids);
            && |t.entries| == |r.entries| && t.started == r.started
            && (forall j: nat :: j < |r.entries| ==> (t.entries[j].settled <==> r.entries[j].settled || j in ids))
            && t.running == (if r.running.Some? && r.running.value in ids then None else r.running)
    decreases |ids|
  {
    if ids != [] {
      ExpireOnly(Expire(r, ids[0]), ids[1..]);
      assert forall j :: j in ids <==> j == ids[0] || j in ids[1..];
    }
  }

  ghost predicate TimeUp(r: Realm, id: nat, now: real) {
    id < |r.entries| && !r.entries[id].settled && r.entries[id].at.Fin? && r.entries[id].at.r - now < 1.0
  }

  /** The timer settles just the calls whose time is up, to within its millisecond, and frees the
      realm just where one of them had it. */
  lemma TimerSettles(rs: seq<Realm>, es: seq<Event>, n: nat)
    requires Run(rs, es) && n < |es| && es[n].Fired?
    ensures var r, t := rs[n], rs[n + 1];
            && |t.entries| == |r.entries| && t.started == r.started && t.waiting == r.waiting
            && (forall id: nat :: id < |r.entries| ==>
                  (t.entries[id].settled <==> r.entries[id].settled || TimeUp(r, id, es[n].now)))
            && (r.running.Some? && TimeUp(r, r.running.value, es[n].now) ==> t.running.None?)
            && (r.running.Some? && !TimeUp(r, r.running.value, es[n].now) ==> t.running == r.running)
  {
    hide InOrder, Settling, Timed;
    AlwaysOk(rs, es, n);
    var r, now := rs[n], es[n].now;
    var a := r.(deadlines := Arm(r.deadlines, now));
    DueExact(r, now);
    ExpireOnly(a, Due(r.deadlines.pending, now));
    ExpireWaits(a, Due(r.deadlines.pending, now));
  }

  lemma DueExact(r: Realm, now: real)
    requires Pending(r)
    ensures forall id :: id in Due(r.deadlines.pending, now) <==> TimeUp(r, id, now)
  {
    forall id: nat | TimeUp(r, id, now) ensures id in Due(r.deadlines.pending, now) {
      assert Deadline(id, r.entries[id].at.r) in r.deadlines.pending;
    }
  }

  lemma {:induction false} ExpireWaits(r: Realm, ids: seq<nat>)
    ensures ExpireAll(r, ids).waiting == r.waiting
    decreases |ids|
  {
    if ids != [] { ExpireWaits(Expire(r, ids[0]), ids[1..]); }
  }

  /** A call admitted is last in the queue, unless its time was up as it came; and nothing settles
      then but what has its time up. */
  lemma AdmitWaits(rs: seq<Realm>, es: seq<Event>, n: nat)
    requires Run(rs, es) && n < |es| && es[n].Called?
    ensures var r, t, id := rs[n], rs[n + 1], |rs[n].entries|;
            && |t.entries| == id + 1 && t.entries[id].at == es[n].at && t.started == r.started
            && t.waiting == (if t.entries[id].settled then r.waiting else r.waiting + [id])
            && (t.entries[id].settled ==> es[n].at.Fin? && es[n].at.r - es[n].now < 1.0)
            && (forall j: nat :: j < id ==> t.entries[j].settled ==> r.entries[j].settled || TimeUp(r, j, es[n].now))
            && (forall j: nat :: j < id ==> r.entries[j].settled ==> t.entries[j].settled)
  {
    hide InOrder, Settling, Timed, Pending;
    AlwaysOk(rs, es, n);
    var r, at, now, id := rs[n], es[n].at, es[n].now, |rs[n].entries|;
    if at.Fin? {
      var e := r.(entries := r.entries + [Entry(at, false, false)]);
      BoundOnly(r, e, id, at.r, now);
    }
  }

  lemma BoundOnly(r: Realm, e: Realm, id: nat, at: real, now: real)
    requires Pending(r) && id == |r.entries| && e == r.(entries := r.entries + [Entry(Fin(at), false, false)])
    ensures var b := Bound(e, id, at, now);
            && |b.entries| == id + 1 && b.started == r.started && b.waiting == r.waiting && b.entries[id].at == Fin(at)
            && (b.entries[id].settled ==> at - now < 1.0)
            && (forall j: nat :: j < id ==> b.entries[j].settled ==> r.entries[j].settled || TimeUp(r, j, now))
            && (forall j: nat :: j < id ==> r.entries[j].settled ==> b.entries[j].settled)
  {
    hide ExpireAll, Add, Pending;
    var added := Add(e.deadlines, Deadline(id, at), now);
    ExpireOnly(e.(deadlines := added.q), added.due);
    ExpireWaits(e.(deadlines := added.q), added.due);
    ExpireAts(e.(deadlines := added.q), added.due);
    AddedDue(r, id, at, now);
  }

  lemma AddedDue(r: Realm, id: nat, at: real, now: real)
    requires Pending(r) && id == |r.entries|
    ensures forall j :: j in Add(r.deadlines, Deadline(id, at), now).due ==> (j == id && at - now < 1.0) || TimeUp(r, j, now)
  {
    var due := Add(r.deadlines, Deadline(id, at), now).due;
    forall j | j in due ensures (j == id && at - now < 1.0) || TimeUp(r, j, now) {
      var d :| d in r.deadlines.pending + [Deadline(id, at)] && d.id == j && IsDue(d, now);
    }
  }

  lemma {:induction false} ExpireAts(r: Realm, ids: seq<nat>)
    ensures var t := ExpireAll(r, ids);
            |t.entries| == |r.entries| && forall j: nat :: j < |r.entries| ==> t.entries[j].at == r.entries[j].at
    decreases |ids|
  {
    if ids != [] { ExpireAts(Expire(r, ids[0]), ids[1..]); }
  }
}
