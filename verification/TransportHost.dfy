/** `LinkOutboundOwner` and the outbound side of `TransportHost` (WASM/services/link.ts) as the
    objects they are: each write proved to do what Outbound's functions say. */
module TransportHosts {
  import opened Base
  import O = Outbound

  class LinkOutboundOwner {
    const id: nat
    const parent: TransportHost
    var queued: seq<nat>
    var charged: int
    var closed: bool

    ghost function View(): O.Owner
      reads this
    {
      O.Owner(queued, charged)
    }

    /** One of its driver's live links. */
    ghost predicate Live()
      reads this, parent, parent.links.Values
    {
      parent.Valid() && id in parent.links && parent.links[id] == this
    }

    constructor (id: nat, parent: TransportHost)
      ensures this.id == id && this.parent == parent && queued == [] && charged == 0 && !closed
    {
      this.id, this.parent := id, parent;
      queued, charged, closed := [], 0, false;
    }

    /** How many of the writes are behind the backlog `now`, and their bytes. */
    method Drained(now: nat) returns (n: nat, bytes: int)
      ensures n <= |queued| && O.Settle(View(), now) == O.Owner(queued[n..], charged - bytes)
    {
      n, bytes := 0, 0;
      assert queued[0..] == queued;
      while n < |queued| && charged - bytes - queued[n] >= now
        invariant 0 <= n <= |queued|
        invariant O.Settle(O.Owner(queued[n..], charged - bytes), now) == O.Settle(View(), now)
      {
        assert queued[n..][1..] == queued[n + 1..];
        bytes := bytes + queued[n];
        n := n + 1;
      }
    }

    /** No report releases nothing. */
    method Settle(now: Option<nat>)
      requires Live()
      modifies this, parent`outboundBytes, parent`outboundSlices, parent`view
      ensures Live() && parent.Node() == O.Reconcile(old(parent.Node()), id, now) && !closed
    {
      hide O.Settle;
      if now.Some? {
        var n, bytes := Drained(now.value);
        Release(n, bytes);
      }
    }

    /** The first `n` writes are off the link, and off the driver. */
    method Release(n: nat, bytes: int)
      requires Live() && n <= |queued|
      modifies this, parent`outboundBytes, parent`outboundSlices, parent`view
      ensures Live() && parent.Node() == O.Put(old(parent.Node()), id, O.Owner(old(queued[n..]), old(charged) - bytes))
    {
      queued := queued[n..];
      charged := charged - bytes;
      parent.ReleaseOutbound(bytes, n);
      parent.view := parent.view[id := View()];
    }

    /** Admit one write; None where the source throws, which ends the link. What the adapter
        answers, before, during a sweep and after, comes with the call. */
    method Send(len: nat, a: O.Answers) returns (charge: Option<int>)
      requires Live() && O.NodeOk(parent.Node())
      modifies this, parent, parent.links.Values
      ensures charge.Some? ==> Live() && parent.Node() == O.Send(old(parent.Node()), id, len, a) && charge.value == charged
      ensures charge.None? ==> Live() && !closed && O.Drop(parent.Node(), id) == O.Send(old(parent.Node()), id, len, a)
      ensures parent.links == old(parent.links)
    {
      hide O.NodeOk, O.Drop, O.Sweep, O.Settle;
      if a.first.None? {
        return None;
      }
      O.ReconcileOk(parent.Node(), id, a.first);
      Settle(a.first);
      if len == 0 {
        return Some(charged);
      }
      if |queued| >= O.MAX_SLICES || len > O.MAX_BYTES - charged {
        return None;
      }
      O.SweepRoom(parent.Node(), parent.order, a.sweep, id, len);
      var reserved := parent.ReserveOutbound(len, a.sweep);
      if !reserved {
        return None;
      }
      Charge(len);
      if !a.sent {
        return None;
      }
      Settle(a.last);
      return Some(charged);
    }

    method Charge(len: nat)
      requires Live()
      modifies this, parent
      ensures Live() && parent.Node() == O.Charge(old(parent.Node()), id, len) && parent.links == old(parent.links)
    {
      parent.outboundSlices := parent.outboundSlices + 1;
      parent.outboundBytes := parent.outboundBytes + len;
      charged := charged + len;
      queued := queued + [len];
      parent.view := parent.view[id := View()];
    }
  }

  class TransportHost {
    var links: map<nat, LinkOutboundOwner>
    /** The links' ids, in the order a sweep takes them. */
    var order: seq<nat>
    var outboundBytes: int
    var outboundSlices: int
    ghost var view: map<nat, O.Owner>

    ghost function Node(): O.Node
      reads this
    {
      O.Node(view, order, outboundBytes, outboundSlices)
    }

    ghost predicate Valid()
      reads this, links.Values
    {
      && view.Keys == links.Keys
      && (forall id :: id in links ==> links[id].id == id && links[id].parent == this && !links[id].closed)
      && (forall id :: id in links ==> view[id] == links[id].View())
    }

    constructor ()
      ensures Valid() && O.NodeOk(Node()) && links == map[]
    {
      links, order, outboundBytes, outboundSlices, view := map[], [], 0, 0, map[];
    }

    method ReleaseOutbound(bytes: int, slices: nat)
      modifies `outboundBytes, `outboundSlices
      ensures outboundBytes == old(outboundBytes) - bytes && outboundSlices == old(outboundSlices) - slices
    {
      outboundBytes := outboundBytes - bytes;
      outboundSlices := outboundSlices - slices;
    }

    /** Whether the driver has room, after asking every link on a refusal. */
    method ReserveOutbound(len: nat, sweep: nat -> Option<nat>) returns (ok: bool)
      requires Valid()
      modifies this, links.Values
      ensures Valid() && links == old(links) && Node() == O.Swept(old(Node()), len, sweep) && ok == O.Fits(Node(), len)
    {
      hide O.Settle;
      if !(outboundSlices < O.MAX_NODE_SLICES && len <= O.MAX_NODE_BYTES - outboundBytes) {
        var i := 0;
        assert order[0..] == order;
        while i < |order|
          invariant 0 <= i <= |order| && Valid() && links == old(links) && order == old(order)
          invariant O.Sweep(Node(), order[i..], sweep) == O.Sweep(old(Node()), old(order), sweep)
        {
          assert order[i..][1..] == order[i + 1..];
          if order[i] in links {
            links[order[i]].Settle(sweep(order[i]));
          }
          i := i + 1;
        }
      }
      ok := outboundSlices < O.MAX_NODE_SLICES && len <= O.MAX_NODE_BYTES - outboundBytes;
    }

    /** Register a link under a new id. */
    method Register(id: nat)
      requires Valid() && O.NodeOk(Node()) && id !in links
      modifies this
      ensures Valid() && O.NodeOk(Node()) && Node() == O.Register(old(Node()), id)
      ensures id in links && fresh(links[id]) && links == old(links)[id := links[id]]
    {
      hide O.NodeOk;
      O.RegisterOk(Node(), id);
      var owner := new LinkOutboundOwner(id, this);
      links := links[id := owner];
      order := order + [id];
      view := view[id := owner.View()];
    }

    /** One write from the occupant; a link that cannot take it is dropped, answering 0. */
    method SendOn(id: nat, len: nat, a: O.Answers) returns (charge: int)
      requires Valid() && O.NodeOk(Node())
      modifies this, links.Values
      ensures Valid() && O.NodeOk(Node()) && Node() == O.Send(old(Node()), id, len, a)
      ensures charge == if id in links then Node().links[id].charged else 0
    {
      hide O.NodeOk, O.Send, O.Drop;
      O.SendOk(Node(), id, len, a);
      SendGone(Node(), id, len, a);
      if id !in links {
        return 0;
      }
      var sent := links[id].Send(len, a);
      if sent.None? {
        ChannelClosed(id);
        return 0;
      }
      return sent.value;
    }

    lemma SendGone(n: O.Node, id: nat, len: nat, a: O.Answers)
      ensures id !in n.links ==> O.Send(n, id, len, a) == n
    {
    }

    /** A link gone: its charge is released once. */
    method ChannelClosed(id: nat)
      requires Valid()
      modifies this, links.Values
      ensures Valid() && Node() == O.Drop(old(Node()), id) && links == old(links) - {id}
    {
      if id !in links {
        return;
      }
      var link := links[id];
      links := links - {id};
      RemoveFromOrder(id);
      link.closed := true;
      ReleaseOutbound(link.charged, |link.queued|);
      link.queued, link.charged := [], 0;
      view := view - {id};
    }

    method RemoveFromOrder(id: nat)
      modifies `order
      ensures order == O.Without(old(order), id)
    {
      var kept, i := [], 0;
      assert order[0..] == order;
      while i < |order|
        invariant 0 <= i <= |order|
        invariant kept + O.Without(order[i..], id) == O.Without(order, id)
      {
        assert order[i..][1..] == order[i + 1..];
        if order[i] != id {
          kept := kept + [order[i]];
        }
        i := i + 1;
      }
      order := kept;
    }
  }
}
