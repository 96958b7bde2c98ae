/** The delivery window (WASM/transport/src/router.js:175-191, 258-286): how many requests each
    peer may have waiting on the host, so that none starves another. A weight is a request's
    bytes and its share of a call, counted in a fraction of a byte in which both are whole. */
module Delivery {
  import opened Base

  type Peer = nat

  /** The window, and the weight of the largest request, two of which it holds. */
  datatype Window = Window(size: int, largest: int)

  ghost predicate Fit(w: Window) { 0 < w.largest && 2 * w.largest <= w.size }

  datatype Request = Request(from: Peer, weight: int)

  /** What is waiting, by peer and in all. `out` is history: each request not yet answered. */
  datatype Load = Load(delivering: map<Peer, int>, total: int, out: seq<Request>)

  function Mine(l: Load, from: Peer): int { if from in l.delivering then l.delivering[from] else 0 }

  /** The admission rule. The share is by the peers waiting, so it shrinks as more of them wait. */
  predicate Admits(w: Window, l: Load, from: Peer, weight: int) {
    if Mine(l, from) == 0 then l.total + weight <= w.size
    else l.total + weight <= w.size - w.largest && (Mine(l, from) + weight) * |l.delivering| <= w.size
  }

  function Held(l: Load, from: Peer, weight: int): Load {
    var mine := Mine(l, from) + weight;
    l.(delivering := if mine > 0 then l.delivering[from := mine] else l.delivering - {from}, total := l.total + weight)
  }

  datatype Event = Asked(from: Peer, weight: int) | Answered(i: nat)

  function Step(w: Window, l: Load, e: Event): Load {
    match e
    case Asked(from, weight) =>
      if Admits(w, l, from, weight) then Held(l, from, weight).(out := l.out + [Request(from, weight)]) else l
    case Answered(i) =>
      if i < |l.out| then Held(l, l.out[i].from, -l.out[i].weight).(out := l.out[..i] + l.out[i + 1..]) else l
  }

  // ── what is waiting ────────────────────────────────────────────────────────────────

  function WaitingOf(out: seq<Request>, from: Peer): int {
    if out == [] then 0 else (if out[0].from == from then out[0].weight else 0) + WaitingOf(out[1..], from)
  }

  lemma {:induction false} WaitingConcat(a: seq<Request>, b: seq<Request>, from: Peer)
    ensures WaitingOf(a + b, from) == WaitingOf(a, from) + WaitingOf(b, from)
  {
    if a == [] {
      assert a + b == b;
    } else {
      assert (a + b)[1..] == a[1..] + b;
      WaitingConcat(a[1..], b, from);
    }
  }

  lemma WaitingOne(r: Request, from: Peer)
    ensures WaitingOf([r], from) == if r.from == from then r.weight else 0
  {
    assert [r][1..] == [];
  }

  lemma WaitingSnoc(out: seq<Request>, r: Request)
    ensures forall p :: WaitingOf(out + [r], p) == WaitingOf(out, p) + (if r.from == p then r.weight else 0)
  {
    forall p ensures WaitingOf(out + [r], p) == WaitingOf(out, p) + (if r.from == p then r.weight else 0) {
      WaitingConcat(out, [r], p);
      WaitingOne(r, p);
    }
  }

  lemma WaitingLess(out: seq<Request>, i: nat)
    requires i < |out|
    ensures forall p :: WaitingOf(out[..i] + out[i + 1..], p) == WaitingOf(out, p) - (if out[i].from == p then out[i].weight else 0)
  {
    forall p ensures WaitingOf(out[..i] + out[i + 1..], p) == WaitingOf(out, p) - (if out[i].from == p then out[i].weight else 0) {
      assert out == out[..i] + ([out[i]] + out[i + 1..]);
      WaitingConcat(out[..i], [out[i]] + out[i + 1..], p);
      WaitingConcat([out[i]], out[i + 1..], p);
      WaitingConcat(out[..i], out[i + 1..], p);
      WaitingOne(out[i], p);
    }
  }

  /** The sum over the peers. */
  function Weighed(): int -> int { (x: int) => x }

  ghost function Sum(m: map<Peer, int>): int { SumMap(m, Weighed()) }

  lemma SumSet(m: map<Peer, int>, p: Peer, x: int)
    ensures Sum(m[p := x]) == x + Sum(m - {p})
  {
    hide SumMap;
    SumMapAdd(m - {p}, Weighed(), p, x);
    assert (m - {p})[p := x] == m[p := x];
  }

  lemma SumLess(m: map<Peer, int>, p: Peer)
    ensures Sum(m) == (if p in m then m[p] else 0) + Sum(m - {p})
  {
    if p in m { SumMapSplit(m, Weighed(), p); } else { assert m - {p} == m; }
  }

  lemma {:induction false} SumCovers(m: map<Peer, int>, p: Peer)
    requires forall q :: q in m ==> m[q] >= 0
    ensures Sum(m) >= Mine(Load(m, 0, []), p)
    decreases |m|
  {
    if m != map[] {
      var q := Pick(m);
      SumLess(m, q);
      SumCovers(m - {q}, p);
      if p != q && p in m { assert p in m - {q}; }
      SumCovers(m - {q}, q);
    }
  }

  // ── what every run keeps ───────────────────────────────────────────────────────────

  ghost predicate Counted(l: Load) {
    && (forall p :: p in l.delivering ==> l.delivering[p] > 0)
    && (forall p :: Mine(l, p) == WaitingOf(l.out, p))
    && l.total == Sum(l.delivering)
  }

  /** The window is never passed, and no one peer has more of it than leaves room for one
      request of the largest size. */
  ghost predicate Fair(w: Window, l: Load) {
    l.total <= w.size && forall p :: p in l.delivering ==> l.delivering[p] <= w.size - w.largest
  }

  ghost predicate Sane(w: Window, l: Load) {
    Counted(l) && Fair(w, l) && forall i :: 0 <= i < |l.out| ==> 0 < l.out[i].weight <= w.largest
  }

  ghost predicate Possible(w: Window, e: Event) { e.Asked? ==> 0 < e.weight <= w.largest }

  lemma HoldCounts(l: Load, from: Peer, weight: int, out: seq<Request>)
    requires Counted(l) && Mine(l, from) + weight >= 0
    requires forall p :: WaitingOf(out, p) == WaitingOf(l.out, p) + (if p == from then weight else 0)
    ensures Counted(Held(l, from, weight).(out := out))
  {
    hide WaitingOf, Sum;
    var mine := Mine(l, from) + weight;
    SumLess(l.delivering, from);
    SumSet(l.delivering, from, mine);
  }

  lemma {:induction false} WaitingPositive(w: Window, out: seq<Request>, from: Peer)
    requires forall i :: 0 <= i < |out| ==> 0 < out[i].weight <= w.largest
    ensures WaitingOf(out, from) >= 0
  {
    if out != [] { WaitingPositive(w, out[1..], from); }
  }

  lemma StepSane(w: Window, l: Load, e: Event)
    requires Fit(w) && Sane(w, l) && Possible(w, e)
    ensures Sane(w, Step(w, l, e))
  {
    hide WaitingOf, Sum;
    match e
    case Asked(from, weight) =>
      if Admits(w, l, from, weight) {
        WaitingSnoc(l.out, Request(from, weight));
        WaitingPositive(w, l.out, from);
        HoldCounts(l, from, weight, l.out + [Request(from, weight)]);
        AdmittedFair(w, l, from, weight);
      }
    case Answered(i) =>
      if i < |l.out| {
        var r, less := l.out[i], l.out[..i] + l.out[i + 1..];
        WaitingLess(l.out, i);
        assert forall j :: 0 <= j < |less| ==> less[j] in l.out;
        WaitingPositive(w, less, r.from);
        HoldCounts(l, r.from, -r.weight, less);
      }
  }

  lemma AdmittedFair(w: Window, l: Load, from: Peer, weight: int)
    requires Fit(w) && Fair(w, l) && Counted(l) && 0 < weight <= w.largest && Admits(w, l, from, weight)
    ensures Fair(w, Held(l, from, weight))
  {
    SumCovers(l.delivering, from);
  }

  ghost predicate Run(w: Window, ls: seq<Load>, es: seq<Event>) {
    && |ls| == |es| + 1 && ls[0] == Load(map[], 0, [])
    && forall i :: 0 <= i < |es| ==> Possible(w, es[i]) && ls[i + 1] == Step(w, ls[i], es[i])
  }

  lemma {:induction false} AlwaysSane(w: Window, ls: seq<Load>, es: seq<Event>, n: nat)
    requires Fit(w) && Run(w, ls, es) && n < |ls|
    ensures Sane(w, ls[n])
  {
    hide Sane, Step;
    if n == 0 {
      StartSane(w);
    } else {
      AlwaysSane(w, ls, es, n - 1);
      StepSane(w, ls[n - 1], es[n - 1]);
    }
  }

  lemma StartSane(w: Window)
    requires Fit(w)
    ensures Sane(w, Load(map[], 0, []))
  {
  }

  /** Over any run, a peer with nothing waiting is admitted a request of the largest size while
      at most one other peer is waiting. */
  lemma NewcomerAdmitted(w: Window, ls: seq<Load>, es: seq<Event>, n: nat, from: Peer, weight: int)
    requires Fit(w) && Run(w, ls, es) && n < |ls| && weight <= w.largest
    requires from !in ls[n].delivering && |ls[n].delivering| <= 1
    ensures Admits(w, ls[n], from, weight)
  {
    AlwaysSane(w, ls, es, n);
    var m := ls[n].delivering;
    if m != map[] {
      var p := Pick(m);
      SumLess(m, p);
      assert |m - {p}| == 0;
      assert m - {p} == map[];
    }
  }

  lemma RunOn(w: Window, ls: seq<Load>, es: seq<Event>, e: Event)
    requires Run(w, ls, es) && Possible(w, e)
    ensures Run(w, ls + [Step(w, ls[|es|], e)], es + [e])
  {
  }

  /** A peer on its own can fill the window up to one largest request, in requests it may send. */
  lemma {:induction false} OneFills(w: Window, x: nat) returns (ls: seq<Load>, es: seq<Event>)
    requires Fit(w) && x <= w.size - w.largest
    ensures Run(w, ls, es) && ls[|es|].total == x
    ensures ls[|es|].delivering == if x == 0 then map[] else map[0 := x]
  {
    if x == 0 {
      ls, es := [Load(map[], 0, [])], [];
    } else {
      var y: nat := Max(0, x - w.largest);
      ls, es := OneFills(w, y);
      var l, e := ls[|es|], Asked(0, x - y);
      assert Mine(l, 0) == y && (y > 0 ==> |l.delivering| == 1);
      assert Admits(w, l, 0, x - y);
      RunOn(w, ls, es, e);
      ls, es := ls + [Step(w, l, e)], es + [e];
    }
  }

  /** With two others waiting there may be no room at all: one has filled the window but for a
      largest request, and the other has sent that. */
  lemma TwoCanFill(w: Window) returns (ls: seq<Load>, es: seq<Event>)
    requires Fit(w)
    ensures Run(w, ls, es) && |ls[|es|].delivering| == 2 && 2 !in ls[|es|].delivering && ls[|es|].total == w.size
    ensures forall weight :: weight > 0 ==> !Admits(w, ls[|es|], 2, weight)
  {
    ls, es := OneFills(w, w.size - w.largest);
    var l, e := ls[|es|], Asked(1, w.largest);
    assert Mine(l, 1) == 0 && Admits(w, l, 1, w.largest);
    RunOn(w, ls, es, e);
    ls, es := ls + [Step(w, l, e)], es + [e];
    assert ls[|es|].delivering == map[0 := w.size - w.largest, 1 := w.largest];
  }

  /** In every run, with up to `others` peers waiting, one with nothing waiting is admitted a
      request of the largest size. */
  ghost predicate AlwaysRoom(w: Window, others: nat) {
    forall ls: seq<Load>, es: seq<Event>, n: nat, from: Peer ::
      Run(w, ls, es) && n < |ls| && from !in ls[n].delivering && |ls[n].delivering| <= others ==>
        Admits(w, ls[n], from, w.largest)
  }

  /** So the rule keeps room for a newcomer beside one other peer, and beside no more. */
  lemma AlwaysRoomIff(w: Window, others: nat)
    requires Fit(w)
    ensures AlwaysRoom(w, others) <==> others <= 1
  {
    if others <= 1 {
      forall ls: seq<Load>, es: seq<Event>, n: nat, from: Peer
        | Run(w, ls, es) && n < |ls| && from !in ls[n].delivering && |ls[n].delivering| <= others
        ensures Admits(w, ls[n], from, w.largest)
      {
        NewcomerAdmitted(w, ls, es, n, from, w.largest);
      }
    } else {
      var ls, es := TwoCanFill(w);
      assert !Admits(w, ls[|es|], 2, w.largest);
    }
  }

  // ── what is admitted, told by the requests not yet answered ──────────────────────────

  function TotalOf(out: seq<Request>): int { if out == [] then 0 else out[0].weight + TotalOf(out[1..]) }

  ghost function Waiters(out: seq<Request>): set<Peer> { set i | 0 <= i < |out| :: out[i].from }

  lemma {:induction false} TotalConcat(a: seq<Request>, b: seq<Request>)
    ensures TotalOf(a + b) == TotalOf(a) + TotalOf(b)
  {
    if a == [] {
      assert a + b == b;
    } else {
      assert (a + b)[1..] == a[1..] + b;
      TotalConcat(a[1..], b);
    }
  }

  lemma StepTotals(w: Window, l: Load, e: Event)
    requires l.total == TotalOf(l.out)
    ensures Step(w, l, e).total == TotalOf(Step(w, l, e).out)
  {
    match e
    case Asked(from, weight) => TotalConcat(l.out, [Request(from, weight)]);
    case Answered(i) =>
      if i < |l.out| {
        assert l.out == l.out[..i] + ([l.out[i]] + l.out[i + 1..]);
        TotalConcat(l.out[..i], [l.out[i]] + l.out[i + 1..]);
        TotalConcat([l.out[i]], l.out[i + 1..]);
        TotalConcat(l.out[..i], l.out[i + 1..]);
      }
  }

  lemma {:induction false} AlwaysTotal(w: Window, ls: seq<Load>, es: seq<Event>, n: nat)
    requires Run(w, ls, es) && n < |ls|
    ensures ls[n].total == TotalOf(ls[n].out)
  {
    hide Step, Possible;
    if n > 0 {
      AlwaysTotal(w, ls, es, n - 1);
      StepTotals(w, ls[n - 1], es[n - 1]);
    }
  }

  lemma {:induction false} WaitingSome(out: seq<Request>, p: Peer)
    requires forall i :: 0 <= i < |out| ==> out[i].weight > 0
    ensures WaitingOf(out, p) >= 0 && (WaitingOf(out, p) > 0 <==> p in Waiters(out))
  {
    if out != [] {
      WaitingSome(out[1..], p);
      assert Waiters(out) == Waiters(out[1..]) + {out[0].from} by {
        forall q | q in Waiters(out) ensures q in Waiters(out[1..]) + {out[0].from} {
          var i :| 0 <= i < |out| && out[i].from == q;
          if i > 0 { assert out[1..][i - 1].from == q; }
        }
        forall q | q in Waiters(out[1..]) ensures q in Waiters(out) {
          var i :| 0 <= i < |out[1..]| && out[1..][i].from == q;
          assert out[i + 1].from == q;
        }
      }
    } else {
      assert Waiters(out) == {};
    }
  }

  /** A request may go on: from a peer with none waiting, where the window holds it; from one with
      some, where that leaves room for a largest request, and its share is no more than the peers
      waiting would each have. */
  ghost predicate Welcome(w: Window, out: seq<Request>, r: Request) {
    if r.from !in Waiters(out) then TotalOf(out) + r.weight <= w.size
    else
      && TotalOf(out) + r.weight <= w.size - w.largest
      && (WaitingOf(out, r.from) + r.weight) * |Waiters(out)| <= w.size
  }

  /** In every run a request is taken exactly where it may go on, and an answer takes off just its own. */
  lemma TakenIff(w: Window, ls: seq<Load>, es: seq<Event>, n: nat)
    requires Fit(w) && Run(w, ls, es) && n < |es|
    ensures es[n].Asked? ==>
              var r := Request(es[n].from, es[n].weight);
              ls[n + 1].out == ls[n].out + (if Welcome(w, ls[n].out, r) then [r] else [])
    ensures es[n].Answered? ==>
              ls[n + 1].out == if es[n].i < |ls[n].out| then ls[n].out[..es[n].i] + ls[n].out[es[n].i + 1..] else ls[n].out
  {
    hide SumMap, Fair;
    AlwaysSane(w, ls, es, n);
    AlwaysTotal(w, ls, es, n);
    var l := ls[n];
    forall p ensures p in l.delivering <==> p in Waiters(l.out) { WaitingSome(l.out, p); }
    assert l.delivering.Keys == Waiters(l.out);
    assert |l.delivering| == |l.delivering.Keys|;
  }

  // ── the object ─────────────────────────────────────────────────────────────────────

  /** The window's part of `ReqRes`. */
  class ReqRes {
    const w: Window
    var delivering: map<Peer, int>
    var deliveringWeight: int
    ghost var out: seq<Request>

    ghost function View(): Load
      reads this
    {
      Load(delivering, deliveringWeight, out)
    }

    constructor (w: Window)
      requires Fit(w)
      ensures Sane(w, View()) && View() == Load(map[], 0, []) && this.w == w
    {
      this.w := w;
      delivering, deliveringWeight, out := map[], 0, [];
      new;
      StartSane(w);
    }

    method Hold(from: Peer, weight: int)
      modifies `delivering, `deliveringWeight
      ensures View() == Held(old(View()), from, weight)
    {
      var mine := (if from in delivering then delivering[from] else 0) + weight;
      if mine > 0 {
        delivering := delivering[from := mine];
      } else {
        delivering := delivering - {from};
      }
      deliveringWeight := deliveringWeight + weight;
    }

    method AdmitsNow(from: Peer, weight: int) returns (ok: bool)
      ensures ok == Admits(w, View(), from, weight)
    {
      var mine := if from in delivering then delivering[from] else 0;
      if mine == 0 {
        return deliveringWeight + weight <= w.size;
      }
      return deliveringWeight + weight <= w.size - w.largest && (mine + weight) * |delivering| <= w.size;
    }

    /** A request arrives: whether it goes on to the host, or is answered empty at once. */
    method OnRequest(from: Peer, weight: int) returns (ok: bool)
      requires Fit(w) && Sane(w, View()) && 0 < weight <= w.largest
      modifies this
      ensures Sane(w, View()) && View() == Step(w, old(View()), Asked(from, weight))
      ensures ok == Admits(w, old(View()), from, weight)
    {
      hide Sane;
      StepSane(w, View(), Asked(from, weight));
      ok := AdmitsNow(from, weight);
      if ok {
        Hold(from, weight);
        out := out + [Request(from, weight)];
      }
    }

    /** The host answered the `i`-th of those waiting. */
    method Done(i: nat, from: Peer, weight: int)
      requires Fit(w) && Sane(w, View()) && i < |out| && out[i] == Request(from, weight)
      modifies this
      ensures Sane(w, View()) && View() == Step(w, old(View()), Answered(i))
    {
      hide Sane;
      StepSane(w, View(), Answered(i));
      Hold(from, -weight);
      out := out[..i] + out[i + 1..];
    }
  }
}
