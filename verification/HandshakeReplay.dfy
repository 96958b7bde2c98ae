/** Which first messages an accept answers (WASM/transport/src/ake.js:220-231, 638-682): exactly those
    that prove a contact secret and are new to it, and none twice among 4096. */
module HandshakeReplay {
  import opened Base
  import opened Handshake
  import opened HandshakeRun

  /** The message's proof opens under this contact secret. */
  ghost predicate Proves1(c: Crypto, root: Bytes, w1: Bytes, secret: Bytes)
    requires |w1| == M1_LEN
  {
    c.open(Hash(c, ProbeKey(secret, ProbeOf(c, root, w1))), ZERO_NPUB, w1[1217..]).Some?
  }

  lemma {:induction false} TriesAll(c: Crypto, secrets: seq<Bytes>, ctx: Bytes, seal: Bytes, last: Option<Bytes>)
    ensures var t := TrySecrets(c, secrets, ctx, seal, last);
            && (t.ok <==> exists s :: s in secrets && c.open(Hash(c, ProbeKey(s, ctx)), ZERO_NPUB, seal).Some?)
            && (t.ok ==> t.secret.Some? && t.secret.value in secrets
                         && c.open(Hash(c, ProbeKey(t.secret.value, ctx)), ZERO_NPUB, seal).Some?)
    decreases |secrets|
  {
    hide Hash;
    if secrets != [] {
      TriesAll(c, secrets[1..], ctx, seal, Some(secrets[0]));
      assert forall s :: s in secrets <==> s == secrets[0] || s in secrets[1..];
    }
  }

  /** A first message gets past the checks before any costly work: its width and suite, a contact
      secret it proves, an ephemeral key not seen, and the limiter's leave. */
  ghost predicate Passes(c: Crypto, n: Node, h: Hand, w1: Bytes) {
    && |w1| == 1233 && w1[0] == 3 && n.secrets.Some? && w1[1..33] !in n.seen && n.promoted
    && exists s :: s in n.secrets.value && Proves1(c, h.root, w1, s)
  }

  /** An accept answers just the first messages that pass and whose keys can be used, under a secret
      they prove; any other gets silence. */
  lemma AnswersIff(c: Crypto, n: Node, h: Hand, w1: Bytes)
    requires !h.stalled
    ensures var r := OnMsg1(c, n, h, w1);
            var sk := if h.myEph.Some? then h.myEph.value else n.ephSk;
            && (r.out.Some? <==> Passes(c, n, h, w1) && c.dh(sk, w1[1..33]).Some? && c.encaps(w1[33..1217], n.coins).Some?)
            && (r.out.Some? ==> r.hand.contactSecret.Some? && r.hand.contactSecret.value in n.secrets.value
                                && Proves1(c, h.root, w1, r.hand.contactSecret.value) && r.hand.peerEph == Some(w1[1..33]))
            && (r.out.None? ==> r.hand.stalled && r.hand.closed == h.closed && r.hand.authed == h.authed && r.hand.peer == h.peer)
  {
    hide Hash, Identity, ProbeOf;
    if |w1| == M1_LEN && w1[0] == SUITE && n.secrets.Some? {
      TriesAll(c, n.secrets.value, ProbeOf(c, h.root, w1), w1[1217..], h.contactSecret);
    }
  }

  /** A dialer's next message: what it proves, and what is made of it. */
  ghost predicate Proves2(c: Crypto, n: Node, h: Hand, w2: Bytes, sig: Bytes)
    requires |w2| == M2_LEN && h.myEph.Some? && h.myKem.Some? && h.contactSecret.Some?
  {
    var ee, kem := c.dh(h.myEph.value, w2[..32]), c.decaps(c.kemKeys(h.myKem.value).sk, w2[32..1120]);
    && ee.Some? && kem.Some?
    && c.open(Hash(c, Msg2Key(ee.value, kem.value, h.contactSecret.value, Hash(c, BeforeSig(h.th, w2[..1120])))), ZERO_NPUB,
              w2[1120..]) == Some(sig)
  }

  /** A dialer authenticates just on an answer under the secrets both hold whose signature verifies as
      the dialed peer's, another than itself, that it admits. What does not open is met with silence;
      what opens and proves nothing closes the link. */
  lemma DialerIff(c: Crypto, n: Node, h: Hand, w2: Bytes)
    requires !h.stalled && !h.closed && !h.authed && h.myEph.Some? && h.myKem.Some? && h.contactSecret.Some?
    ensures var r := OnMsg2(c, n, h, w2);
            && (r.hand.authed <==> |w2| == M2_LEN && n.dialed != n.own && n.admits(n.dialed)
                                   && exists sig :: Proves2(c, n, h, w2, sig)
                                        && c.verify(n.dialed, sig, Identity(h.root, Hash(c, BeforeSig(h.th, w2[..1120])), n.dialed)))
            && (r.hand.stalled <==> |w2| != M2_LEN || forall sig :: !Proves2(c, n, h, w2, sig))
            && (r.hand.closed <==> !r.hand.authed && !r.hand.stalled)
            && (r.out.Some? <==> r.hand.authed)
  {
    hide Hash, Identity;
    if |w2| == M2_LEN {
      var ee, kem := c.dh(h.myEph.value, w2[..32]), c.decaps(c.kemKeys(h.myKem.value).sk, w2[32..1120]);
      if ee.Some? && kem.Some? {
        var key := Hash(c, Msg2Key(ee.value, kem.value, h.contactSecret.value, Hash(c, BeforeSig(h.th, w2[..1120]))));
        var sig := c.open(key, ZERO_NPUB, w2[1120..]);
        if sig.Some? { assert Proves2(c, n, h, w2, sig.value); }
      }
    }
  }

  /** What an accept's last message names, if it opens, and the signature with it. */
  ghost predicate Proves3(c: Crypto, h: Hand, w3: Bytes, id: Bytes, sig: Bytes)
    requires |w3| == M3_LEN && h.ee.Some? && h.kem.Some? && h.contactSecret.Some?
  {
    var plain := c.open(Hash(c, Msg3Key(h.ee.value, h.kem.value, h.contactSecret.value, h.th)), ZERO_NPUB, w3);
    && plain.Some? && |plain.value| >= PK_LEN + SIG_LEN
    && id == plain.value[..PK_LEN] && sig == plain.value[PK_LEN..PK_LEN + SIG_LEN]
    && c.verify(id, sig, Identity(h.root, h.th, id))
  }

  /** An accept authenticates just where its last message names another than itself that signed the
      transcript, that it admits, and that it expects if it expects one. A peer that proves itself and
      is not wanted closes the link; anything less is met with silence. */
  lemma AcceptIff(c: Crypto, n: Node, h: Hand, w3: Bytes)
    requires !h.stalled && !h.closed && !h.authed && h.ee.Some? && h.kem.Some? && h.contactSecret.Some?
    ensures var r := OnMsg3(c, n, h, w3);
            var wanted := (id: Bytes) => n.admits(id) && (n.expects.Some? ==> id == n.expects.value);
            && (r.hand.authed <==> |w3| == M3_LEN && exists id, sig :: Proves3(c, h, w3, id, sig) && id != n.own && wanted(id))
            && (r.hand.closed <==> |w3| == M3_LEN && exists id, sig :: Proves3(c, h, w3, id, sig) && id != n.own && !wanted(id))
            && (r.hand.stalled <==> !r.hand.authed && !r.hand.closed)
            && r.out.None?
  {
    hide Hash, Identity;
    if |w3| == M3_LEN {
      var plain := c.open(Hash(c, Msg3Key(h.ee.value, h.kem.value, h.contactSecret.value, h.th)), ZERO_NPUB, w3);
      if plain.Some? && |plain.value| >= PK_LEN + SIG_LEN {
        var id, sig := plain.value[..PK_LEN], plain.value[PK_LEN..PK_LEN + SIG_LEN];
        if c.verify(id, sig, Identity(h.root, h.th, id)) { assert Proves3(c, h, w3, id, sig); }
      }
    }
  }

  ghost predicate LetGo(h: Hand, r: Hand) {
    (r.authed && !h.authed) || (r.stalled && !h.stalled) ==> r.myEph.None? && r.myKem.None? && r.ee.None? && r.kem.None?
  }

  lemma FirstLetsGo(c: Crypto, n: Node, h: Hand, w1: Bytes)
    requires !h.stalled
    ensures LetGo(h, OnMsg1(c, n, h, w1).hand)
  {
    hide Hash, Identity, TrySecrets, ProbeOf;
  }

  lemma SecondLetsGo(c: Crypto, n: Node, h: Hand, w2: Bytes)
    requires !h.stalled
    ensures LetGo(h, OnMsg2(c, n, h, w2).hand)
  {
    hide Hash, Identity;
  }

  lemma ThirdLetsGo(c: Crypto, n: Node, h: Hand, w3: Bytes)
    requires !h.stalled
    ensures LetGo(h, OnMsg3(c, n, h, w3).hand)
  {
    hide Hash, Identity;
  }

  /** A link that authenticates or refuses has let go of its handshake secrets. */
  lemma SecretsGo(c: Crypto, n: Node, h: Hand, weDialed: bool, m: Bytes)
    ensures LetGo(h, OnMessage(c, n, h, weDialed, m).hand)
  {
    hide OnMsg1, OnMsg2, OnMsg3;
    if !h.stalled {
      FirstLetsGo(c, n, h, m);
      SecondLetsGo(c, n, h, m);
      ThirdLetsGo(c, n, h, m);
    }
  }

  /** A refusal stands: no later message is looked at. */
  lemma RefusalStands(c: Crypto, n: Node, h: Hand, weDialed: bool, m: Bytes)
    requires h.stalled || h.closed
    ensures OnMessage(c, n, h, weDialed, m) == Reply(h, None)
  {
  }

  // ── no message answered twice ────────────────────────────────────────────────────────

  /** The ephemeral keys remembered, oldest first: the oldest goes when there are 4096. */
  function Remember(seen: seq<Bytes>, eph: Bytes): seq<Bytes> { (if |seen| >= 4096 then seen[1..] else seen) + [eph] }

  /** A first message arriving at some link of the node, with all that link's step asks of it. */
  datatype Arrival = Arrival(n: Node, h: Hand, w1: Bytes)

  /** What the node remembers, arrival by arrival: each that passes. */
  ghost predicate Remembers(c: Crypto, seens: seq<seq<Bytes>>, xs: seq<Arrival>) {
    && |seens| == |xs| + 1 && |seens[0]| <= 4096
    && forall i :: 0 <= i < |xs| ==>
         && (forall e :: e in xs[i].n.seen <==> e in seens[i])
         && seens[i + 1] == if Passes(c, xs[i].n, xs[i].h, xs[i].w1) then Remember(seens[i], xs[i].w1[1..33]) else seens[i]
  }

  /** How many passed of those from `i` to before `j`. */
  ghost function Passed(c: Crypto, xs: seq<Arrival>, i: nat, j: nat): nat
    requires i <= j <= |xs|
    decreases j - i
  {
    if i == j then 0 else (if Passes(c, xs[j - 1].n, xs[j - 1].h, xs[j - 1].w1) then 1 else 0) + Passed(c, xs, i, j - 1)
  }

  lemma {:induction false} MemoryBounded(c: Crypto, seens: seq<seq<Bytes>>, xs: seq<Arrival>, n: nat)
    requires Remembers(c, seens, xs) && n < |seens|
    ensures |seens[n]| <= 4096
  {
    hide Passes;
    if n > 0 { MemoryBounded(c, seens, xs, n - 1); }
  }

  /** A key remembered is so many places from the newest as have passed since, and goes only when
      that is 4096. */
  lemma {:induction false} StillSeen(c: Crypto, seens: seq<seq<Bytes>>, xs: seq<Arrival>, i: nat, j: nat)
    requires Remembers(c, seens, xs) && i < j <= |xs| && Passes(c, xs[i].n, xs[i].h, xs[i].w1)
    requires Passed(c, xs, i + 1, j) < 4096
    ensures var k := Passed(c, xs, i + 1, j);
            k < |seens[j]| && seens[j][|seens[j]| - 1 - k] == xs[i].w1[1..33]
    decreases j
  {
    hide Passes;
    MemoryBounded(c, seens, xs, j - 1);
    if j > i + 1 {
      StillSeen(c, seens, xs, i, j - 1);
    } else {
      assert |xs[i].w1| == 1233 by { PassWidth(c, xs[i]); }
    }
  }

  lemma PassWidth(c: Crypto, a: Arrival)
    requires Passes(c, a.n, a.h, a.w1)
    ensures |a.w1| == 1233 && a.w1[1..33] !in a.n.seen
  {
  }

  /** A replayed first message, on whatever link and under whatever secret, passes again only after
      4096 others have passed. */
  lemma NoneTwice(c: Crypto, seens: seq<seq<Bytes>>, xs: seq<Arrival>, i: nat, j: nat)
    requires Remembers(c, seens, xs) && i < j < |xs|
    requires Passes(c, xs[i].n, xs[i].h, xs[i].w1) && Passes(c, xs[j].n, xs[j].h, xs[j].w1)
    requires xs[i].w1[1..33] == xs[j].w1[1..33]
    ensures Passed(c, xs, i + 1, j) >= 4096
  {
    hide Passes;
    if Passed(c, xs, i + 1, j) < 4096 {
      StillSeen(c, seens, xs, i, j);
      PassWidth(c, xs[j]);
      assert false;
    }
  }
}
