/** Outbound accounting (WASM/services/link.ts:153-229, 305-327, 351-354, 396-407, 620-623): each
    link's charge for what its adapter still holds, under the driver's. Proved over every run:
    the driver's totals are the sums over its links, all four ceilings hold, and an adapter
    that drains in order is never charged less than it holds, nor a whole write more. */
module Outbound {
  import opened Base

  const MAX_BYTES: nat := 8 * 2 * 1024 * 1024
  const MAX_SLICES: nat := 4096
  const MAX_NODE_BYTES: nat := 4 * MAX_BYTES
  const MAX_NODE_SLICES: nat := 4 * MAX_SLICES

  /** One link: the sizes of the writes it is charged for, in send order, and their sum. */
  datatype Owner = Owner(queued: seq<nat>, charged: int)

  /** The driver: its live links, in the order they were registered, and its totals. */
  datatype Node = Node(links: map<nat, Owner>, order: seq<nat>, bytes: int, slices: int)

  /** What the adapters answer during one send: this link's backlog before and after, the
      others' if they are asked, and whether the write was taken. */
  datatype Answers = Answers(first: Option<nat>, sweep: nat -> Option<nat>, sent: bool, last: Option<nat>)

  /** Writes leave in the order they came, so those before the last `now` bytes are gone; one
      that is not wholly gone stays. */
  function Settle(o: Owner, now: nat): Owner
    decreases |o.queued|
  {
    if o.queued != [] && o.charged - o.queued[0] >= now
    then Settle(Owner(o.queued[1..], o.charged - o.queued[0]), now) else o
  }

  /** The driver after one link's owner became `o`, what it released with it. */
  function Put(n: Node, id: nat, o: Owner): Node
    requires id in n.links
  {
    var was := n.links[id];
    n.(links := n.links[id := o], bytes := n.bytes + o.charged - was.charged, slices := n.slices + |o.queued| - |was.queued|)
  }

  function Reconcile(n: Node, id: nat, report: Option<nat>): Node {
    if id !in n.links || report.None? then n else Put(n, id, Settle(n.links[id], report.value))
  }

  /** Every link asked in turn. */
  function Sweep(n: Node, ids: seq<nat>, sweep: nat -> Option<nat>): Node
    decreases |ids|
  {
    if ids == [] then n else Sweep(Reconcile(n, ids[0], sweep(ids[0])), ids[1..], sweep)
  }

  predicate Fits(n: Node, len: nat) { n.slices < MAX_NODE_SLICES && len <= MAX_NODE_BYTES - n.bytes }

  /** The links are swept only on a refusal. */
  function Swept(n: Node, len: nat, sweep: nat -> Option<nat>): Node {
    if Fits(n, len) then n else Sweep(n, n.order, sweep)
  }

  function Without(order: seq<nat>, id: nat): seq<nat> {
    if order == [] then [] else (if order[0] == id then [] else [order[0]]) + Without(order[1..], id)
  }

  /** A link gone: all it was charged is released. */
  function Drop(n: Node, id: nat): Node {
    if id !in n.links then n
    else
      var o := n.links[id];
      Node(n.links - {id}, Without(n.order, id), n.bytes - o.charged, n.slices - |o.queued|)
  }

  function Register(n: Node, id: nat): Node {
    if id in n.links then n else n.(links := n.links[id := Owner([], 0)], order := n.order + [id])
  }

  predicate LinkFits(o: Owner, len: nat) { |o.queued| < MAX_SLICES && len <= MAX_BYTES - o.charged }

  function Charge(n: Node, id: nat, len: nat): Node
    requires id in n.links
  {
    var o := n.links[id];
    Put(n, id, Owner(o.queued + [len], o.charged + len))
  }

  /** One write: what cannot be admitted or sent ends the link. An empty one only asks. */
  function Send(n: Node, id: nat, len: nat, a: Answers): Node {
    if id !in n.links then n
    else if a.first.None? then Drop(n, id)
    else
      var n1 := Reconcile(n, id, a.first);
      if len == 0 then n1
      else if !LinkFits(n1.links[id], len) then Drop(n1, id)
      else
        var n2 := Swept(n1, len, a.sweep);
        if !Fits(n2, len) || id !in n2.links then Drop(n2, id)
        else if !a.sent then Drop(Charge(n2, id, len), id)
        else Reconcile(Charge(n2, id, len), id, a.last)
  }

  // ── what every step keeps ──────────────────────────────────────────────────────────

  function ChargedOf(): Owner -> int { (o: Owner) => o.charged }
  function SlicesOf(): Owner -> int { (o: Owner) => |o.queued| }

  ghost predicate OwnerOk(o: Owner) { o.charged == SumSeq(o.queued) <= MAX_BYTES && |o.queued| <= MAX_SLICES }

  ghost predicate Summed(n: Node) {
    n.bytes == SumMap(n.links, ChargedOf()) && n.slices == SumMap(n.links, SlicesOf())
  }

  /** The totals are the sums over the links, each charge the sum of its writes, and no ceiling
      is passed. */
  ghost predicate NodeOk(n: Node) {
    && (forall id :: id in n.links ==> OwnerOk(n.links[id]))
    && Summed(n) && n.bytes <= MAX_NODE_BYTES && n.slices <= MAX_NODE_SLICES
  }

  lemma {:induction false} SettleOk(o: Owner, now: nat)
    requires OwnerOk(o)
    ensures var s := Settle(o, now); OwnerOk(s) && s.charged <= o.charged && |s.queued| <= |o.queued|
    decreases |o.queued|
  {
    if o.queued != [] && o.charged - o.queued[0] >= now { SettleOk(Owner(o.queued[1..], o.charged - o.queued[0]), now); }
  }

  lemma PutSums(n: Node, id: nat, o: Owner)
    requires id in n.links && Summed(n)
    ensures Summed(Put(n, id, o))
  {
    hide SumMap;
    var rest := n.links - {id};
    SumMapSplit(n.links, ChargedOf(), id);
    SumMapSplit(n.links, SlicesOf(), id);
    SumMapAdd(rest, ChargedOf(), id, o);
    SumMapAdd(rest, SlicesOf(), id, o);
    assert rest[id := o] == n.links[id := o];
  }

  lemma ReconcileOk(n: Node, id: nat, report: Option<nat>)
    requires NodeOk(n)
    ensures var m := Reconcile(n, id, report); NodeOk(m) && m.bytes <= n.bytes && m.slices <= n.slices
    ensures Reconcile(n, id, report).links.Keys == n.links.Keys
  {
    hide OwnerOk, Summed;
    if id in n.links && report.Some? {
      SettleOk(n.links[id], report.value);
      PutSums(n, id, Settle(n.links[id], report.value));
    }
  }

  lemma {:induction false} SweepOk(n: Node, ids: seq<nat>, sweep: nat -> Option<nat>)
    requires NodeOk(n)
    ensures NodeOk(Sweep(n, ids, sweep)) && Sweep(n, ids, sweep).links.Keys == n.links.Keys
    decreases |ids|
  {
    hide NodeOk;
    if ids != [] {
      ReconcileOk(n, ids[0], sweep(ids[0]));
      SweepOk(Reconcile(n, ids[0], sweep(ids[0])), ids[1..], sweep);
    }
  }

  lemma DropOk(n: Node, id: nat)
    requires NodeOk(n)
    ensures NodeOk(Drop(n, id))
  {
    hide SumMap, OwnerOk;
    if id in n.links {
      SumMapSplit(n.links, ChargedOf(), id);
      SumMapSplit(n.links, SlicesOf(), id);
      assert OwnerOk(n.links[id]);
      Positive(n.links[id]);
    }
  }

  lemma Positive(o: Owner)
    requires OwnerOk(o)
    ensures o.charged >= 0
  {
  }

  lemma ChargeOk(n: Node, id: nat, len: nat)
    requires NodeOk(n) && id in n.links && LinkFits(n.links[id], len) && Fits(n, len)
    ensures NodeOk(Charge(n, id, len))
  {
    hide Summed;
    var o := n.links[id];
    SumSeqConcat(o.queued, [len]);
    assert [len][1..] == [];
    PutSums(n, id, Owner(o.queued + [len], o.charged + len));
  }

  /** A sweep only ever makes a link's own room larger. */
  lemma {:induction false} SweepRoom(n: Node, ids: seq<nat>, sweep: nat -> Option<nat>, id: nat, len: nat)
    requires NodeOk(n) && id in n.links && LinkFits(n.links[id], len)
    ensures var m := Sweep(n, ids, sweep); id in m.links && LinkFits(m.links[id], len)
    decreases |ids|
  {
    hide NodeOk, OwnerOk;
    if ids != [] {
      ReconcileOk(n, ids[0], sweep(ids[0]));
      RoomKept(n, ids[0], sweep(ids[0]), id, len);
      SweepRoom(Reconcile(n, ids[0], sweep(ids[0])), ids[1..], sweep, id, len);
    }
  }

  lemma RoomKept(n: Node, j: nat, report: Option<nat>, id: nat, len: nat)
    requires NodeOk(n) && id in n.links && LinkFits(n.links[id], len)
    ensures var m := Reconcile(n, j, report); id in m.links && LinkFits(m.links[id], len)
  {
    if j in n.links && report.Some? { SettleOk(n.links[j], report.value); }
  }

  lemma SendOk(n: Node, id: nat, len: nat, a: Answers)
    requires NodeOk(n)
    ensures NodeOk(Send(n, id, len, a))
  {
    hide NodeOk, Sweep;
    DropOk(n, id);
    if id in n.links && a.first.Some? {
      var n1 := Reconcile(n, id, a.first);
      ReconcileOk(n, id, a.first);
      DropOk(n1, id);
      if len > 0 && LinkFits(n1.links[id], len) {
        var n2 := Swept(n1, len, a.sweep);
        SweepOk(n1, n1.order, a.sweep);
        SweepRoom(n1, n1.order, a.sweep, id, len);
        DropOk(n2, id);
        if Fits(n2, len) {
          ChargeOk(n2, id, len);
          DropOk(Charge(n2, id, len), id);
          ReconcileOk(Charge(n2, id, len), id, a.last);
        }
      }
    }
  }

  lemma RegisterOk(n: Node, id: nat)
    requires NodeOk(n)
    ensures NodeOk(Register(n, id))
  {
    hide SumMap;
    if id !in n.links {
      SumMapAdd(n.links, ChargedOf(), id, Owner([], 0));
      SumMapAdd(n.links, SlicesOf(), id, Owner([], 0));
    }
  }

  // ── adapters that drain in order ───────────────────────────────────────────────────

  /** The charge covers what the adapter holds, and after a settle is short of a write more. */
  ghost predicate Covers(o: Owner, held: nat) { held <= o.charged }
  ghost predicate Tight(o: Owner, held: nat) { o.charged - (if o.queued == [] then 0 else o.queued[0]) < held || o.charged == held }

  lemma {:induction false} SettleTight(o: Owner, held: nat)
    requires OwnerOk(o) && Covers(o, held)
    ensures Covers(Settle(o, held), held) && Tight(Settle(o, held), held)
    decreases |o.queued|
  {
    if o.queued != [] && o.charged - o.queued[0] >= held { SettleTight(Owner(o.queued[1..], o.charged - o.queued[0]), held); }
  }

  /** The driver and what each link's adapter holds. */
  datatype System = System(n: Node, held: map<nat, nat>)

  datatype Event =
    | Opened(id: nat)
    | Closed(id: nat)
    | Drained(id: nat, bytes: nat)
    | Wrote(id: nat, len: nat, drained: nat, sent: bool)

  /** What each adapter holds, told exactly. */
  function Telling(held: map<nat, nat>): nat -> Option<nat> { id => if id in held then Some(held[id]) else None }

  function Holds(s: System, id: nat): nat { if id in s.held then s.held[id] else 0 }

  function Step(s: System, e: Event): System {
    match e
    case Opened(id) => if id in s.n.links then s else System(Register(s.n, id), s.held[id := 0])
    case Closed(id) => s.(n := Drop(s.n, id))
    case Drained(id, bytes) => s.(held := s.held[id := Max(0, Holds(s, id) - bytes)])
    case Wrote(id, len, drained, sent) =>
      if id !in s.n.links then s
      else
        var left: nat := Max(0, Holds(s, id) + len - drained);
        var m := Send(s.n, id, len, Answers(Some(Holds(s, id)), Telling(s.held), sent, Some(left)));
        System(m, s.held[id := if len == 0 then Holds(s, id) else left])
  }

  ghost predicate AllCovered(s: System) {
    NodeOk(s.n) && forall id :: id in s.n.links ==> id in s.held && Covers(s.n.links[id], s.held[id])
  }

  ghost predicate Covered(n: Node, held: map<nat, nat>) {
    forall id :: id in n.links ==> id in held && Covers(n.links[id], held[id])
  }

  lemma ReconcileCovered(n: Node, held: map<nat, nat>, id: nat)
    requires NodeOk(n) && Covered(n, held)
    ensures var m := Reconcile(n, id, Telling(held)(id));
            Covered(m, held) && (id in n.links ==> id in m.links && Tight(m.links[id], held[id]))
  {
    if id in n.links { SettleTight(n.links[id], held[id]); }
  }

  lemma {:induction false} SweepCovered(n: Node, ids: seq<nat>, held: map<nat, nat>)
    requires NodeOk(n) && Covered(n, held)
    ensures Covered(Sweep(n, ids, Telling(held)), held)
    decreases |ids|
  {
    hide NodeOk, Covered;
    if ids != [] {
      ReconcileOk(n, ids[0], Telling(held)(ids[0]));
      ReconcileCovered(n, held, ids[0]);
      SweepCovered(Reconcile(n, ids[0], Telling(held)(ids[0])), ids[1..], held);
    }
  }

  lemma ChargeCovered(n: Node, held: map<nat, nat>, id: nat, len: nat, left: nat)
    requires NodeOk(n) && Covered(n, held) && id in n.links && left <= held[id] + len
    ensures Covered(Charge(n, id, len), held[id := left])
  {
  }

  /** A write to an adapter that drains in order leaves every charge covering what is held, and
      the link written to, if it is still there, charged less than one write more. */
  lemma WriteCovered(s: System, id: nat, len: nat, drained: nat, sent: bool)
    requires AllCovered(s) && id in s.n.links
    ensures var t := Step(s, Wrote(id, len, drained, sent));
            AllCovered(t) && (id in t.n.links ==> Tight(t.n.links[id], t.held[id]))
  {
    hide NodeOk, Covered, Sweep, Tight, Covers;
    var left: nat := Max(0, Holds(s, id) + len - drained);
    var a := Answers(Some(Holds(s, id)), Telling(s.held), sent, Some(left));
    SendOk(s.n, id, len, a);
    AsCovered(s);
    var n1 := Reconcile(s.n, id, a.first);
    ReconcileOk(s.n, id, a.first);
    ReconcileCovered(s.n, s.held, id);
    var after := if len == 0 then s.held[id := Holds(s, id)] else s.held[id := left];
    if len == 0 {
      assert after == s.held;
      CoveredAll(n1, after);
    } else {
      DropCovered(n1, s.held, id, left);
      CoveredAll(Drop(n1, id), after);
      if LinkFits(n1.links[id], len) { SentCovered(n1, s.held, id, len, left, a); }
    }
  }

  lemma AsCovered(s: System)
    requires AllCovered(s)
    ensures NodeOk(s.n) && Covered(s.n, s.held) && forall id :: id in s.n.links ==> id in s.held
  {
  }

  lemma CoveredAll(n: Node, held: map<nat, nat>)
    requires Covered(n, held)
    ensures forall id :: id in n.links ==> id in held && Covers(n.links[id], held[id])
  {
  }

  lemma DropCovered(n: Node, held: map<nat, nat>, id: nat, left: nat)
    requires Covered(n, held)
    ensures Covered(Drop(n, id), held[id := left])
  {
  }

  lemma SentCovered(n1: Node, held: map<nat, nat>, id: nat, len: nat, left: nat, a: Answers)
    requires NodeOk(n1) && Covered(n1, held) && id in n1.links && id in held && LinkFits(n1.links[id], len)
    requires left <= held[id] + len && a.sweep == Telling(held) && a.last == Some(left)
    ensures var n2 := Swept(n1, len, a.sweep);
            var t := if !Fits(n2, len) || id !in n2.links then Drop(n2, id)
                     else if !a.sent then Drop(Charge(n2, id, len), id)
                     else Reconcile(Charge(n2, id, len), id, a.last);
            var after := held[id := left];
            (forall j :: j in t.links ==> j in after && Covers(t.links[j], after[j]))
            && (id in t.links ==> Tight(t.links[id], left))
  {
    hide NodeOk, Covered, Sweep, Tight, Covers;
    var n2 := Swept(n1, len, a.sweep);
    var after := held[id := left];
    SweepOk(n1, n1.order, a.sweep);
    SweepCovered(n1, n1.order, held);
    SweepRoom(n1, n1.order, a.sweep, id, len);
    DropCovered(n2, held, id, left);
    CoveredAll(Drop(n2, id), after);
    if Fits(n2, len) {
      var n3 := Charge(n2, id, len);
      ChargeOk(n2, id, len);
      ChargeCovered(n2, held, id, len, left);
      DropCovered(n3, after, id, left);
      assert after[id := left] == after;
      CoveredAll(Drop(n3, id), after);
      ReconcileCovered(n3, after, id);
      CoveredAll(Reconcile(n3, id, a.last), after);
    }
  }

  lemma StepCovered(s: System, e: Event)
    requires AllCovered(s)
    ensures AllCovered(Step(s, e))
  {
    hide NodeOk;
    match e
    case Opened(id) => RegisterOk(s.n, id);
    case Closed(id) => DropOk(s.n, id);
    case Drained(id, bytes) =>
    case Wrote(id, len, drained, sent) => if id in s.n.links { WriteCovered(s, id, len, drained, sent); }
  }

  function Trace(s: System, es: seq<Event>): System
    decreases |es|
  {
    if es == [] then s else Trace(Step(s, es[0]), es[1..])
  }

  /** Every run: the sums, the ceilings, and no charge below what its adapter holds. */
  lemma {:induction false} AlwaysCovered(s: System, es: seq<Event>)
    requires AllCovered(s)
    ensures AllCovered(Trace(s, es))
    decreases |es|
  {
    hide AllCovered;
    if es != [] {
      StepCovered(s, es[0]);
      AlwaysCovered(Step(s, es[0]), es[1..]);
    }
  }

  // ── adapters that do anything ──────────────────────────────────────────────────────

  datatype NodeEvent = Registered(id: nat) | Gone(id: nat) | Sent(id: nat, len: nat, a: Answers)

  function NodeStep(n: Node, e: NodeEvent): Node {
    match e
    case Registered(id) => Register(n, id)
    case Gone(id) => Drop(n, id)
    case Sent(id, len, a) => Send(n, id, len, a)
  }

  function NodeTrace(n: Node, es: seq<NodeEvent>): Node
    decreases |es|
  {
    if es == [] then n else NodeTrace(NodeStep(n, es[0]), es[1..])
  }

  /** Every run, whatever the adapters answer, none of it or not the truth: the totals are still
      the sums over the links, each charge the sum of its writes, and no ceiling is passed. */
  lemma {:induction false} AlwaysWithinCeilings(n: Node, es: seq<NodeEvent>)
    requires NodeOk(n)
    ensures NodeOk(NodeTrace(n, es))
    decreases |es|
  {
    hide NodeOk;
    if es != [] {
      match es[0] {
        case Registered(id) => RegisterOk(n, id);
        case Gone(id) => DropOk(n, id);
        case Sent(id, len, a) => SendOk(n, id, len, a);
      }
      AlwaysWithinCeilings(NodeStep(n, es[0]), es[1..]);
    }
  }
}
