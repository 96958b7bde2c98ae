/** Which writes a link takes (WASM/services/link.ts:182-229, 305-322, 351-354): told by what the
    adapters report and the four ceilings, for any answers at all. */
module OutboundAdmission {
  import opened Base
  import opened Outbound

  // ── what has drained ─────────────────────────────────────────────────────────────────

  /** What is left of the writes `q` when their adapter says it holds `held` bytes: the fewest of the
      last writes that come to as much, all of them if they do not; with no answer, all of them. */
  ghost predicate IsLeft(q: seq<nat>, held: Option<nat>, l: seq<nat>) {
    if held.None? then l == q
    else exists k: nat :: LeftFrom(q, held.value, k) && l == q[k..]
  }

  ghost predicate LeftFrom(q: seq<nat>, held: nat, k: nat) {
    k <= |q| && (k > 0 ==> SumSeq(q[k..]) >= held) && (k < |q| ==> SumSeq(q[k + 1..]) < held)
  }

  ghost predicate Whole(o: Owner) { o.charged == SumSeq(o.queued) }

  /** A settle takes off just the writes that are gone whole. */
  lemma {:induction false} SettleLeaves(o: Owner, held: nat)
    requires Whole(o)
    ensures Whole(Settle(o, held)) && IsLeft(o.queued, Some(held), Settle(o, held).queued)
    decreases |o.queued|
  {
    hide IsLeft;
    if o.queued != [] && o.charged - o.queued[0] >= held {
      var rest := Owner(o.queued[1..], o.charged - o.queued[0]);
      SettleLeaves(rest, held);
      LeftDeeper(o.queued, held, Settle(rest, held).queued);
    } else {
      NoneGone(o.queued, held);
    }
  }

  lemma NoneGone(q: seq<nat>, held: nat)
    requires q == [] || SumSeq(q[1..]) < held
    ensures IsLeft(q, Some(held), q)
  {
    assert LeftFrom(q, held, 0) && q == q[0..];
  }

  lemma LeftDeeper(q: seq<nat>, held: nat, l: seq<nat>)
    requires q != [] && SumSeq(q[1..]) >= held && IsLeft(q[1..], Some(held), l)
    ensures IsLeft(q, Some(held), l)
  {
    var k: nat :| LeftFrom(q[1..], held, k) && l == q[1..][k..];
    assert q[1..][k..] == q[k + 1..];
    if k < |q| - 1 { assert q[1..][k + 1..] == q[k + 2..]; }
    assert LeftFrom(q, held, k + 1);
  }

  // ── the node's links ─────────────────────────────────────────────────────────────────

  /** Every live link is in the order they are swept in, and no other. */
  ghost predicate Listed(n: Node) { forall id :: id in n.order <==> id in n.links }

  /** `m` is `n` with what one link's adapter reports released. */
  ghost predicate Heard(n: Node, m: Node, id: nat, held: Option<nat>) {
    && NodeOk(m) && m.order == n.order && m.links.Keys == n.links.Keys && id in n.links
    && IsLeft(n.links[id].queued, held, m.links[id].queued)
    && forall j :: j in n.links && j != id ==> m.links[j] == n.links[j]
  }

  lemma ReconcileHears(n: Node, id: nat, held: Option<nat>)
    requires NodeOk(n) && id in n.links
    ensures Heard(n, Reconcile(n, id, held), id, held)
  {
    ReconcileOk(n, id, held);
    if held.Some? {
      assert OwnerOk(n.links[id]);
      SettleLeaves(n.links[id], held.value);
    }
  }

  /** `m` is `n` with every link's adapter asked. */
  ghost predicate AllHeard(n: Node, m: Node, asked: nat -> Option<nat>) {
    && NodeOk(m) && m.order == n.order && m.links.Keys == n.links.Keys
    && forall j :: j in n.links ==> IsLeft(n.links[j].queued, asked(j), m.links[j].queued)
  }

  /** As far as the sweep has come: those asked, and those not. */
  ghost predicate PartHeard(n: Node, m: Node, ids: seq<nat>, asked: nat -> Option<nat>) {
    && NodeOk(m) && m.order == n.order && m.links.Keys == n.links.Keys
    && forall j :: j in n.links ==>
         if j in ids then m.links[j] == n.links[j] || IsLeft(n.links[j].queued, asked(j), m.links[j].queued)
         else IsLeft(n.links[j].queued, asked(j), m.links[j].queued)
  }

  lemma LeftOnce(q: seq<nat>, held: nat, k: nat, j: nat)
    requires LeftFrom(q, held, k) && LeftFrom(q[k..], held, j)
    ensures j == 0
  {
    hide SumSeq;
    if j > 0 {
      var l := q[k..];
      assert l[1..] == q[k + 1..] && l[1..][j - 1..] == l[j..];
      SumTail(l[1..], j - 1);
    }
  }

  /** Asking twice is asking once. */
  lemma LeftTwice(q: seq<nat>, held: Option<nat>, l: seq<nat>, ll: seq<nat>)
    requires IsLeft(q, held, l) && IsLeft(l, held, ll)
    ensures ll == l
  {
    hide SumSeq;
    if held.Some? {
      var k: nat :| LeftFrom(q, held.value, k) && l == q[k..];
      var j: nat :| LeftFrom(l, held.value, j) && ll == l[j..];
      LeftOnce(q, held.value, k, j);
      assert l[0..] == l;
    }
  }

  lemma {:induction false} SumTail(q: seq<nat>, k: nat)
    requires k <= |q|
    ensures SumSeq(q[k..]) <= SumSeq(q)
    decreases k
  {
    if k > 0 {
      SumTail(q[1..], k - 1);
      assert q[1..][k - 1..] == q[k..];
    } else {
      assert q[0..] == q;
    }
  }

  lemma PartOne(n: Node, m: Node, ids: seq<nat>, asked: nat -> Option<nat>)
    requires ids != [] && PartHeard(n, m, ids, asked)
    ensures PartHeard(n, Reconcile(m, ids[0], asked(ids[0])), ids[1..], asked)
  {
    var id := ids[0];
    var u := Reconcile(m, id, asked(id));
    if id in m.links {
      ReconcileHears(m, id, asked(id));
      var q := n.links[id].queued;
      if m.links[id] != n.links[id] || IsLeft(q, asked(id), m.links[id].queued) {
        LeftTwice(q, asked(id), m.links[id].queued, u.links[id].queued);
      }
    }
    assert forall j :: j in ids <==> j == id || j in ids[1..];
  }

  lemma {:induction false} SweepHears(n: Node, m: Node, ids: seq<nat>, asked: nat -> Option<nat>)
    requires PartHeard(n, m, ids, asked)
    ensures AllHeard(n, Sweep(m, ids, asked), asked)
    decreases |ids|
  {
    hide PartHeard, IsLeft;
    if ids == [] {
      PartAll(n, m, asked);
    } else {
      PartOne(n, m, ids, asked);
      SweepHears(n, Reconcile(m, ids[0], asked(ids[0])), ids[1..], asked);
    }
  }

  lemma PartAll(n: Node, m: Node, asked: nat -> Option<nat>)
    requires PartHeard(n, m, [], asked)
    ensures AllHeard(n, m, asked)
  {
  }

  lemma SweptHears(n: Node, asked: nat -> Option<nat>)
    requires NodeOk(n) && Listed(n)
    ensures AllHeard(n, Sweep(n, n.order, asked), asked)
  {
    SweepHears(n, n, n.order, asked);
  }

  // ── one write ────────────────────────────────────────────────────────────────────────

  /** Room for a write under the node's two ceilings. */
  predicate NodeRoom(n: Node, len: nat) { n.slices < 16384 && n.bytes + len <= 0x400_0000 }

  /** And under a link's own. */
  predicate LinkRoom(o: Owner, len: nat) { |o.queued| < 4096 && o.charged + len <= 0x100_0000 }

  /** A write to a live link, step by step as its adapters answer: `heard` once its own is asked, and
      `swept` after the rest are, which they are only where the node has no room. The link stays just
      where its adapter answers, and the write is empty, or fits its ceilings once that is heard and
      the node's once swept, and the adapter takes it. What then is left of its writes, this one last,
      it is charged for; the others lose nothing but what a sweep finds gone. */
  ghost predicate Written(n: Node, m: Node, id: nat, len: nat, a: Answers, heard: Node, swept: Node)
    requires id in n.links
  {
    && Heard(n, heard, id, a.first) && id in heard.links
    && (if NodeRoom(heard, len) then swept == heard else AllHeard(heard, swept, a.sweep))
    && id in swept.links
    && (id in m.links <==>
          a.first.Some? && (len == 0 || (LinkRoom(heard.links[id], len) && NodeRoom(swept, len) && a.sent)))
    && (id in m.links ==>
          if len == 0 then m.links[id] == heard.links[id]
          else IsLeft(swept.links[id].queued + [len], a.last, m.links[id].queued))
    && m.links.Keys - {id} == n.links.Keys - {id}
    && (forall j :: j in m.links && j != id ==>
          && j in n.links && j in swept.links
          && m.links[j] == if a.first.None? || len == 0 || !LinkRoom(heard.links[id], len) then n.links[j] else swept.links[j])
  }

  lemma SendAdmits(n: Node, id: nat, len: nat, a: Answers) returns (heard: Node, swept: Node)
    requires NodeOk(n) && Listed(n) && id in n.links
    ensures Written(n, Send(n, id, len, a), id, len, a, heard, swept) && NodeOk(Send(n, id, len, a))
  {
    hide NodeOk, IsLeft, Sweep, Settle;
    SendOk(n, id, len, a);
    heard := Reconcile(n, id, a.first);
    ReconcileHears(n, id, a.first);
    var all := Sweep(heard, heard.order, a.sweep);
    SweptHears(heard, a.sweep) by { HeardListed(n, heard, id, a.first); }
    swept := if NodeRoom(heard, len) then heard else all;
    if a.first.Some? && len > 0 && LinkRoom(heard.links[id], len) && NodeRoom(swept, len) && a.sent {
      SweepRoom(heard, heard.order, a.sweep, id, len);
      ChargeOk(swept, id, len);
      ReconcileHears(Charge(swept, id, len), id, a.last);
    }
  }

  lemma HeardListed(n: Node, m: Node, id: nat, held: Option<nat>)
    requires Listed(n) && Heard(n, m, id, held)
    ensures NodeOk(m) && Listed(m)
  {
  }

  // ── every run ────────────────────────────────────────────────────────────────────────

  lemma {:induction false} WithoutExact(order: seq<nat>, id: nat)
    ensures forall j :: j in Without(order, id) <==> j in order && j != id
  {
    if order != [] { WithoutExact(order[1..], id); }
  }

  lemma DropListed(n: Node, id: nat)
    requires Listed(n)
    ensures Listed(Drop(n, id))
  {
    WithoutExact(n.order, id);
  }

  lemma SameListed(n: Node, m: Node)
    requires Listed(n) && m.order == n.order && m.links.Keys == n.links.Keys
    ensures Listed(m)
  {
  }

  lemma SendListed(n: Node, id: nat, len: nat, a: Answers)
    requires NodeOk(n) && Listed(n)
    ensures Listed(Send(n, id, len, a))
  {
    hide NodeOk, Settle, Listed, Drop, Sweep;
    if id in n.links && a.first.Some? {
      var n1 := Reconcile(n, id, a.first);
      ReconcileOk(n, id, a.first);
      SameListed(n, n1);
      DropListed(n1, id);
      var n2 := Swept(n1, len, a.sweep);
      SweepOk(n1, n1.order, a.sweep);
      SweepOrder(n1, n1.order, a.sweep);
      SameListed(n1, n2);
      DropListed(n2, id);
      if id in n2.links { ChargeListed(n2, id, len, a.last); }
    }
    DropListed(n, id);
  }

  lemma ChargeListed(n: Node, id: nat, len: nat, held: Option<nat>)
    requires Listed(n) && id in n.links
    ensures Listed(Drop(Charge(n, id, len), id)) && Listed(Reconcile(Charge(n, id, len), id, held))
  {
    hide Settle, Drop;
    SameListed(n, Charge(n, id, len));
    DropListed(Charge(n, id, len), id);
    SameListed(n, Reconcile(Charge(n, id, len), id, held));
  }

  lemma {:induction false} SweepOrder(n: Node, ids: seq<nat>, sweep: nat -> Option<nat>)
    ensures Sweep(n, ids, sweep).order == n.order
    decreases |ids|
  {
    if ids != [] { SweepOrder(Reconcile(n, ids[0], sweep(ids[0])), ids[1..], sweep); }
  }

  /** Over every run, whatever the adapters answer: a sweep asks every live link, and no other. */
  lemma {:induction false} AlwaysListed(n: Node, es: seq<NodeEvent>)
    requires NodeOk(n) && Listed(n)
    ensures Listed(NodeTrace(n, es)) && NodeOk(NodeTrace(n, es))
    decreases |es|
  {
    hide NodeOk, Send, Drop;
    if es != [] {
      match es[0] {
        case Registered(id) => RegisterOk(n, id);
        case Gone(id) => DropOk(n, id); DropListed(n, id);
        case Sent(id, len, a) => SendOk(n, id, len, a); SendListed(n, id, len, a);
      }
      AlwaysListed(NodeStep(n, es[0]), es[1..]);
    }
  }

  /** In every run a write to a live link is taken, or ends the link, as `Written` says. */
  lemma EveryWriteJudged(es: seq<NodeEvent>, id: nat, len: nat, a: Answers) returns (heard: Node, swept: Node)
    requires id in NodeTrace(Node(map[], [], 0, 0), es).links
    ensures var n := NodeTrace(Node(map[], [], 0, 0), es); Written(n, NodeStep(n, Sent(id, len, a)), id, len, a, heard, swept)
  {
    hide Written, NodeOk;
    var none := Node(map[], [], 0, 0);
    NoneOk();
    AlwaysListed(none, es);
    heard, swept := SendAdmits(NodeTrace(none, es), id, len, a);
  }

  lemma NoneOk()
    ensures NodeOk(Node(map[], [], 0, 0)) && Listed(Node(map[], [], 0, 0))
  {
  }
}
