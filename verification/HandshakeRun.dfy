/** The handshake's steps (WASM/transport/src/ake.js:588-759) and what they establish. */
module HandshakeRun {
  import opened Base
  import opened Handshake

  /** What a step asks of its node: its own key, whom it admits, whom it dials or expects, its
      contact secrets (None if asking failed), the proved msg1s it remembers, whether the
      limiter lets it go on, and the randomness drawn. */
  datatype Node = Node(
    own: Bytes, admits: Bytes -> bool, dialed: Bytes, expects: Option<Bytes>,
    secrets: Option<seq<Bytes>>, seen: set<Bytes>, promoted: bool,
    ephSk: Bytes, kemSeed: Bytes, coins: Bytes)

  /** A link's handshake state. Its keypairs are kept as the secrets they derive from. */
  datatype Hand = Hand(
    root: Bytes, contactSecret: Option<Bytes>, myEph: Option<Bytes>, myKem: Option<Bytes>,
    ee: Option<Bytes>, kem: Option<Bytes>, peerEph: Option<Bytes>, th: Bytes, peer: Option<Bytes>,
    sendKey: Option<Bytes>, recvKey: Option<Bytes>,
    authed: bool, stalled: bool, closed: bool, aborted: bool)

  /** A link after a step, and the message it put on the wire. */
  datatype Reply = Reply(hand: Hand, out: Option<Bytes>)

  function Opening(root: Bytes, secret: Option<Bytes>): Hand {
    Hand(root, secret, None, None, None, None, None, [], None, None, None, false, false, false, false)
  }

  function Cleared(h: Hand): Hand { h.(myEph := None, myKem := None, ee := None, kem := None) }

  /** A refusal that says nothing. */
  function Stall(h: Hand): Hand {
    if h.stalled then h else Cleared(h.(stalled := true, aborted := true))
  }

  function Abort(h: Hand, defensive: bool): Hand { h.(closed := true, aborted := h.aborted || defensive) }

  function Identity(root: Bytes, th: Bytes, id: Bytes): Bytes { DOMAIN_CHANNEL + root + th + id }

  function ProbeOf(c: Crypto, root: Bytes, w1: Bytes): Bytes
    requires |w1| == M1_LEN
  {
    Hash(c, ProbeContext(root, w1[..1], w1[1..33], w1[33..1217]))
  }

  function SendMsg1(c: Crypto, n: Node, h: Hand): Reply
    requires h.contactSecret.Some?
  {
    var eph, kemPk := c.pub(n.ephSk), c.kemKeys(n.kemSeed).pk;
    var ctx := Hash(c, ProbeContext(h.root, [SUITE], eph, kemPk));
    var w1 := [SUITE] + eph + kemPk + c.seal(Hash(c, ProbeKey(h.contactSecret.value, ctx)), ZERO_NPUB, []);
    Reply(h.(myEph := Some(n.ephSk), myKem := Some(n.kemSeed), th := Hash(c, AfterMsg1(h.root, w1))), Some(w1))
  }

  datatype Tried = Tried(secret: Option<Bytes>, ok: bool)

  /** The first of an accept's secrets the probe opens under; the last tried when none does. */
  function TrySecrets(c: Crypto, secrets: seq<Bytes>, ctx: Bytes, seal: Bytes, last: Option<Bytes>): Tried
    decreases |secrets|
  {
    if secrets == [] then Tried(last, false)
    else if c.open(Hash(c, ProbeKey(secrets[0], ctx)), ZERO_NPUB, seal).Some? then Tried(Some(secrets[0]), true)
    else TrySecrets(c, secrets[1..], ctx, seal, Some(secrets[0]))
  }

  function OnMsg1(c: Crypto, n: Node, h: Hand, w1: Bytes): Reply {
    if |w1| != M1_LEN || w1[0] != SUITE || n.secrets.None? then Reply(Stall(h), None)
    else
      var t := TrySecrets(c, n.secrets.value, ProbeOf(c, h.root, w1), w1[1217..], h.contactSecret);
      var g := h.(contactSecret := t.secret);
      if !t.ok || w1[1..33] in n.seen || !n.promoted then Reply(Stall(g), None)
      else Answer(c, n, g, w1)
  }

  /** The answer to a msg1 whose probe opened: both secrets, and a signature over all so far. */
  function Answer(c: Crypto, n: Node, h: Hand, w1: Bytes): Reply
    requires |w1| == M1_LEN
  {
    var sk := if h.myEph.Some? then h.myEph.value else n.ephSk;
    var ee := c.dh(sk, w1[1..33]);
    var kem := c.encaps(w1[33..1217], n.coins);
    if ee.None? || kem.None? || h.contactSecret.None? then Reply(Stall(h), None)
    else
      var h1 := Hash(c, AfterMsg1(h.root, w1));
      var head := c.pub(sk) + kem.value.ct;
      var hs := Hash(c, BeforeSig(h1, head));
      var sig := c.sign(n.own, Identity(h.root, hs, n.own));
      var w2 := head + c.seal(Hash(c, Msg2Key(ee.value, kem.value.ss, h.contactSecret.value, hs)), ZERO_NPUB, sig);
      Reply(h.(myEph := Some(sk), ee := ee, kem := Some(kem.value.ss), peerEph := Some(w1[1..33]),
               th := Hash(c, AfterMsg2(h1, w2))), Some(w2))
  }

  function OnMsg2(c: Crypto, n: Node, h: Hand, w2: Bytes): Reply {
    if |w2| != M2_LEN || h.myEph.None? || h.myKem.None? || h.contactSecret.None? then Reply(Stall(h), None)
    else
      var head := w2[..1120];
      var ee, kem := c.dh(h.myEph.value, w2[..32]), c.decaps(c.kemKeys(h.myKem.value).sk, w2[32..1120]);
      if ee.None? || kem.None? then Reply(Stall(h), None)
      else
        var hs := Hash(c, BeforeSig(h.th, head));
        var sig := c.open(Hash(c, Msg2Key(ee.value, kem.value, h.contactSecret.value, hs)), ZERO_NPUB, w2[1120..]);
        if sig.None? then Reply(Stall(h), None)
        else
          var g := h.(ee := ee, kem := kem);
          if n.dialed == n.own then Reply(Abort(g, false), None)
          else if !c.verify(n.dialed, sig.value, Identity(h.root, hs, n.dialed)) || !n.admits(n.dialed) then Reply(Abort(g, true), None)
          else Finish(c, n, g.(peer := Some(n.dialed)), w2)
  }

  /** The dialer names itself, and both keys are derived: records follow msg3 at once. */
  function Finish(c: Crypto, n: Node, h: Hand, w2: Bytes): Reply
    requires h.ee.Some? && h.kem.Some? && h.contactSecret.Some?
  {
    var h2 := Hash(c, AfterMsg2(h.th, w2));
    var sig := c.sign(n.own, Identity(h.root, h2, n.own));
    var w3 := c.seal(Hash(c, Msg3Key(h.ee.value, h.kem.value, h.contactSecret.value, h2)), ZERO_NPUB, n.own + sig);
    Reply(Derive(c, h.(th := Hash(c, AfterMsg3(h2, w3))), true), Some(w3))
  }

  function Derive(c: Crypto, h: Hand, weDialed: bool): Hand
    requires h.ee.Some? && h.kem.Some? && h.contactSecret.Some?
  {
    var i2r := Hash(c, ToResponder(h.ee.value, h.kem.value, h.contactSecret.value, h.th));
    var r2i := Hash(c, ToInitiator(h.ee.value, h.kem.value, h.contactSecret.value, h.th));
    Cleared(h.(sendKey := Some(if weDialed then i2r else r2i), recvKey := Some(if weDialed then r2i else i2r), authed := true))
  }

  function OnMsg3(c: Crypto, n: Node, h: Hand, w3: Bytes): Reply {
    if |w3| != M3_LEN || h.ee.None? || h.kem.None? || h.contactSecret.None? then Reply(Stall(h), None)
    else
      var plain := c.open(Hash(c, Msg3Key(h.ee.value, h.kem.value, h.contactSecret.value, h.th)), ZERO_NPUB, w3);
      if plain.None? || |plain.value| < PK_LEN + SIG_LEN then Reply(Stall(h), None)
      else
        var id, sig := plain.value[..PK_LEN], plain.value[PK_LEN..PK_LEN + SIG_LEN];
        if !c.verify(id, sig, Identity(h.root, h.th, id)) || id == n.own then Reply(Stall(h), None)
        else if !n.admits(id) || (n.expects.Some? && id != n.expects.value) then Reply(Abort(h, true), None)
        else Reply(Derive(c, h.(peer := Some(id), th := Hash(c, AfterMsg3(h.th, w3))), false), None)
  }

  /** Which step a message is, before authentication: a dialer waits for msg2, an accept for
      msg1 and then, once it has a peer's key, msg3. After a refusal it is none. */
  function OnMessage(c: Crypto, n: Node, h: Hand, weDialed: bool, m: Bytes): Reply {
    if h.closed || h.stalled then Reply(h, None)
    else if weDialed then OnMsg2(c, n, h, m)
    else if h.peerEph.Some? then OnMsg3(c, n, h, m)
    else OnMsg1(c, n, h, m)
  }

  // ── agreement ──────────────────────────────────────────────────────────────────────

  /** The two nodes mean each other, and nothing local refuses. */
  ghost predicate Willing(c: Crypto, i: Node, r: Node) {
    && |i.own| == PK_LEN && |r.own| == PK_LEN && i.own != r.own && i.dialed == r.own
    && i.admits(r.own) && r.admits(i.own) && (r.expects.Some? ==> r.expects.value == i.own)
    && c.pub(i.ephSk) !in r.seen && r.promoted
    && c.dh(r.ephSk, c.pub(i.ephSk)).Some? && c.encaps(c.kemKeys(i.kemSeed).pk, r.coins).Some?
  }

  /** The dialer's secret is one of the accept's, and its probe opens under no other of them. */
  ghost predicate Discerns(c: Crypto, r: Node, root: Bytes, secret: Bytes, w1: Bytes) {
    && |w1| == M1_LEN && r.secrets.Some? && secret in r.secrets.value
    && forall s :: s in r.secrets.value && c.open(Hash(c, ProbeKey(s, ProbeOf(c, root, w1))), ZERO_NPUB, w1[1217..]).Some? ==> s == secret
  }

  lemma {:induction false} TrySecretsFinds(c: Crypto, secrets: seq<Bytes>, ctx: Bytes, seal: Bytes, last: Option<Bytes>, secret: Bytes)
    requires secret in secrets && c.open(Hash(c, ProbeKey(secret, ctx)), ZERO_NPUB, seal).Some?
    requires forall s :: s in secrets && c.open(Hash(c, ProbeKey(s, ctx)), ZERO_NPUB, seal).Some? ==> s == secret
    ensures TrySecrets(c, secrets, ctx, seal, last) == Tried(Some(secret), true)
    decreases |secrets|
  {
    hide Hash;
    assert secrets[0] in secrets;
    if c.open(Hash(c, ProbeKey(secrets[0], ctx)), ZERO_NPUB, seal).None? {
      assert secrets[0] != secret && secrets == [secrets[0]] + secrets[1..];
      TrySecretsFinds(c, secrets[1..], ctx, seal, Some(secrets[0]), secret);
    }
  }

  /** The first message carries the dialer's ephemeral keys, and its probe opens. */
  lemma FirstMessage(c: Crypto, i: Node, root: Bytes, secret: Bytes)
    requires Lawful(c) && Widths(c)
    ensures var w1 := SendMsg1(c, i, Opening(root, Some(secret))).out.value;
            && |w1| == M1_LEN && w1[0] == SUITE && w1[1..33] == c.pub(i.ephSk) && w1[33..1217] == c.kemKeys(i.kemSeed).pk
            && c.open(Hash(c, ProbeKey(secret, ProbeOf(c, root, w1))), ZERO_NPUB, w1[1217..]).Some?
  {
    hide Hash;
    var eph, kemPk := c.pub(i.ephSk), c.kemKeys(i.kemSeed).pk;
    var ctx := Hash(c, ProbeContext(root, [SUITE], eph, kemPk));
    var seal := c.seal(Hash(c, ProbeKey(secret, ctx)), ZERO_NPUB, []);
    var w1 := [SUITE] + eph + kemPk + seal;
    assert w1[..1] == [SUITE] && w1[1..33] == eph && w1[33..1217] == kemPk && w1[1217..] == seal;
  }

  /** What both ends hold once the second message is out. */
  lemma SecondMessage(c: Crypto, i: Node, r: Node, root: Bytes, secret: Bytes)
    requires Lawful(c) && Widths(c) && Willing(c, i, r)
    requires var w1 := SendMsg1(c, i, Opening(root, Some(secret))).out.value; Discerns(c, r, root, secret, w1)
    ensures var m1 := SendMsg1(c, i, Opening(root, Some(secret)));
            var m2 := OnMsg1(c, r, Opening(root, None), m1.out.value);
            && m2.out.Some? && |m2.out.value| == M2_LEN && !m2.hand.stalled && m2.hand.contactSecret == Some(secret)
            && m2.hand.root == root && m2.hand.ee.Some? && m2.hand.kem.Some?
            && m2.hand.ee == c.dh(i.ephSk, m2.out.value[..32])
            && m2.hand.kem == c.decaps(c.kemKeys(i.kemSeed).sk, m2.out.value[32..1120])
            && m2.hand.th == Hash(c, AfterMsg2(m1.hand.th, m2.out.value))
            && var hs := Hash(c, BeforeSig(m1.hand.th, m2.out.value[..1120]));
               c.open(Hash(c, Msg2Key(m2.hand.ee.value, m2.hand.kem.value, secret, hs)), ZERO_NPUB, m2.out.value[1120..])
               == Some(c.sign(r.own, Identity(root, hs, r.own)))
  {
    hide Hash, Identity;
    var m1 := SendMsg1(c, i, Opening(root, Some(secret)));
    var w1 := m1.out.value;
    FirstMessage(c, i, root, secret);
    TrySecretsFinds(c, r.secrets.value, ProbeOf(c, root, w1), w1[1217..], None, secret);
    AnswerMessage(c, i, r, Opening(root, Some(secret)), w1);
  }

  lemma AnswerMessage(c: Crypto, i: Node, r: Node, h: Hand, w1: Bytes)
    requires Lawful(c) && Widths(c) && Willing(c, i, r) && h.contactSecret.Some? && h.myEph.None? && !h.stalled
    requires |w1| == M1_LEN && w1[1..33] == c.pub(i.ephSk) && w1[33..1217] == c.kemKeys(i.kemSeed).pk
    ensures var m2 := Answer(c, r, h, w1);
            var h1 := Hash(c, AfterMsg1(h.root, w1));
            && m2.out.Some? && |m2.out.value| == M2_LEN && !m2.hand.stalled && m2.hand.contactSecret == h.contactSecret
            && m2.hand.root == h.root && m2.hand.ee.Some? && m2.hand.kem.Some?
            && m2.hand.ee == c.dh(i.ephSk, m2.out.value[..32])
            && m2.hand.kem == c.decaps(c.kemKeys(i.kemSeed).sk, m2.out.value[32..1120])
            && m2.hand.th == Hash(c, AfterMsg2(h1, m2.out.value))
            && var hs := Hash(c, BeforeSig(h1, m2.out.value[..1120]));
               c.open(Hash(c, Msg2Key(m2.hand.ee.value, m2.hand.kem.value, h.contactSecret.value, hs)), ZERO_NPUB, m2.out.value[1120..])
               == Some(c.sign(r.own, Identity(h.root, hs, r.own)))
  {
    hide Hash, Identity;
    var kem := c.encaps(w1[33..1217], r.coins).value;
    var head := c.pub(r.ephSk) + kem.ct;
    var w2 := Answer(c, r, h, w1).out.value;
    assert w2[..1120] == head && w2[..32] == c.pub(r.ephSk) && w2[32..1120] == kem.ct;
    assert w2[1120..] == w2[|head|..];
  }

  /** With the messages carried as they were sent, both ends authenticate, under the same contact
      secret, root and transcript; what one sends with the other receives with; and each names
      the other. */
  lemma HandshakeAgrees(c: Crypto, i: Node, r: Node, root: Bytes, secret: Bytes)
    requires Lawful(c) && Widths(c) && Willing(c, i, r)
    requires var w1 := SendMsg1(c, i, Opening(root, Some(secret))).out.value; Discerns(c, r, root, secret, w1)
    ensures var m1 := SendMsg1(c, i, Opening(root, Some(secret)));
            var m2 := OnMsg1(c, r, Opening(root, None), m1.out.value);
            && m2.out.Some?
            && var m3 := OnMsg2(c, i, m1.hand, m2.out.value);
               && m3.out.Some?
               && var m4 := OnMsg3(c, r, m2.hand, m3.out.value);
                  && m3.hand.authed && m4.hand.authed && !m3.hand.stalled && !m4.hand.stalled
                  && m3.hand.contactSecret == m4.hand.contactSecret == Some(secret)
                  && m3.hand.root == m4.hand.root == root && m3.hand.th == m4.hand.th
                  && m3.hand.sendKey.Some? && m3.hand.sendKey == m4.hand.recvKey
                  && m3.hand.recvKey.Some? && m3.hand.recvKey == m4.hand.sendKey
                  && m3.hand.peer == Some(r.own) && m4.hand.peer == Some(i.own)
  {
    hide Hash, Identity, OnMsg1, Finish, OnMsg3, Discerns;
    var m1 := SendMsg1(c, i, Opening(root, Some(secret)));
    SecondMessage(c, i, r, root, secret);
    var m2 := OnMsg1(c, r, Opening(root, None), m1.out.value);
    var m3 := OnMsg2(c, i, m1.hand, m2.out.value);
    var g := m1.hand.(ee := m2.hand.ee, kem := m2.hand.kem, peer := Some(r.own));
    assert m3 == Finish(c, i, g, m2.out.value);
    ThirdMessage(c, i, r, g, m2.hand, m2.out.value);
  }

  lemma ThirdMessage(c: Crypto, i: Node, r: Node, g: Hand, h: Hand, w2: Bytes)
    requires Lawful(c) && Widths(c) && Willing(c, i, r)
    requires g.ee.Some? && g.kem.Some? && g.contactSecret.Some?
    requires h.ee == g.ee && h.kem == g.kem && h.contactSecret == g.contactSecret && h.root == g.root
    requires h.th == Hash(c, AfterMsg2(g.th, w2)) && g.peer == Some(r.own)
    requires !g.stalled && !h.stalled
    ensures var m3 := Finish(c, i, g, w2);
            var m4 := OnMsg3(c, r, h, m3.out.value);
            && m3.out.Some? && m3.hand.authed && m4.hand.authed && !m3.hand.stalled && !m4.hand.stalled
            && m3.hand.contactSecret == m4.hand.contactSecret == g.contactSecret
            && m3.hand.root == m4.hand.root == g.root && m3.hand.th == m4.hand.th
            && m3.hand.sendKey.Some? && m3.hand.sendKey == m4.hand.recvKey
            && m3.hand.recvKey.Some? && m3.hand.recvKey == m4.hand.sendKey
            && m3.hand.peer == Some(r.own) && m4.hand.peer == Some(i.own)
  {
    hide Hash, Identity;
    var sig := c.sign(i.own, Identity(g.root, h.th, i.own));
    var plain := i.own + sig;
    assert plain[..PK_LEN] == i.own && plain[PK_LEN..PK_LEN + SIG_LEN] == sig;
    var w3 := Finish(c, i, g, w2).out.value;
    assert c.open(Hash(c, Msg3Key(h.ee.value, h.kem.value, h.contactSecret.value, h.th)), ZERO_NPUB, w3) == Some(plain);
  }

  // ── and only then ──────────────────────────────────────────────────────────────────

  /** What a session was made of: its secrets and its whole transcript. */
  datatype Session = Session(root: Bytes, w1: Bytes, w2: Bytes, w3: Bytes, ee: Bytes, kem: Bytes, secret: Bytes)

  predicate SessionSized(s: Session) {
    |s.root| == |s.ee| == |s.kem| == |s.secret| == 32 && |s.w1| == M1_LEN && |s.w2| == M2_LEN && |s.w3| == M3_LEN
  }

  function H1(c: Crypto, s: Session): Purpose { AfterMsg1(s.root, s.w1) }
  function H2(c: Crypto, s: Session): Purpose { AfterMsg2(Hash(c, H1(c, s)), s.w2) }
  function H3(c: Crypto, s: Session): Purpose { AfterMsg3(Hash(c, H2(c, s)), s.w3) }
  function I2R(c: Crypto, s: Session): Purpose { ToResponder(s.ee, s.kem, s.secret, Hash(c, H3(c, s))) }
  function R2I(c: Crypto, s: Session): Purpose { ToInitiator(s.ee, s.kem, s.secret, Hash(c, H3(c, s))) }

  /** Everything a session hashes on its way to its keys. */
  function Inputs(c: Crypto, s: Session): set<Purpose> { {H1(c, s), H2(c, s), H3(c, s), I2R(c, s), R2I(c, s)} }

  /** The hash collides on none of these. */
  ghost predicate Injective(c: Crypto, ps: set<Purpose>) {
    forall p, q :: p in ps && q in ps && Hash(c, p) == Hash(c, q) ==> Preimage(p) == Preimage(q)
  }

  /** A link that authenticated derived its keys from such a session. */
  ghost predicate Derived(c: Crypto, h: Hand, s: Session, weDialed: bool) {
    && h.authed && h.th == Hash(c, H3(c, s)) && h.contactSecret == Some(s.secret) && h.root == s.root
    && h.sendKey == Some(Hash(c, if weDialed then I2R(c, s) else R2I(c, s)))
    && h.recvKey == Some(Hash(c, if weDialed then R2I(c, s) else I2R(c, s)))
  }

  /** The transcript a peer signs: the accept up to the head of its answer, the dialer all of it. */
  function SignedBy(c: Crypto, s: Session, weDialed: bool): Bytes {
    if weDialed then Hash(c, BeforeSig(Hash(c, H1(c, s)), s.w2[..Min(1120, |s.w2|)])) else Hash(c, H2(c, s))
  }

  /** The peer named has signed the session's own transcript. */
  ghost predicate Proves(c: Crypto, h: Hand, s: Session, weDialed: bool) {
    h.peer.Some? && exists sig :: c.verify(h.peer.value, sig, Identity(s.root, SignedBy(c, s, weDialed), h.peer.value))
  }

  ghost predicate Authentic(c: Crypto, h: Hand, s: Session, weDialed: bool) {
    Derived(c, h, s, weDialed) && Proves(c, h, s, weDialed)
  }

  /** What a handshake keeps, with the messages of it so far: before it authenticates the
      transcript is theirs, and then a whole session over them, signed by the peer it names. */
  ghost predicate HandOk(c: Crypto, h: Hand, said: seq<Bytes>, weDialed: bool) {
    if h.authed then
      |said| == 3 && exists ee, kem, secret :: Authentic(c, h, Session(h.root, said[0], said[1], said[2], ee, kem, secret), weDialed)
    else if weDialed then
      h.myEph.Some? ==> |said| == 1 && h.th == Hash(c, AfterMsg1(h.root, said[0]))
    else
      && (h.peerEph.None? ==> said == [] && h.ee.None? && h.kem.None?)
      && (h.peerEph.Some? ==> |said| == 2 && h.th == Hash(c, AfterMsg2(Hash(c, AfterMsg1(h.root, said[0])), said[1])))
  }

  /** The messages once `m` has been handled: with it, and its answer, if it was taken. */
  function Said(said: seq<Bytes>, m: Bytes, r: Reply): seq<Bytes> {
    if r.hand.authed || r.out.Some? then said + [m] + (if r.out.Some? then [r.out.value] else []) else said
  }

  lemma OpeningOk(c: Crypto, root: Bytes, secret: Option<Bytes>, weDialed: bool)
    ensures HandOk(c, Opening(root, secret), [], weDialed)
  {
  }

  lemma SendMsg1Ok(c: Crypto, n: Node, h: Hand)
    requires h.contactSecret.Some? && !h.authed
    ensures HandOk(c, SendMsg1(c, n, h).hand, [SendMsg1(c, n, h).out.value], true)
  {
    hide Hash;
  }

  lemma Msg1Ok(c: Crypto, n: Node, h: Hand, said: seq<Bytes>, m: Bytes)
    requires HandOk(c, h, said, false) && !h.authed && h.peerEph.None?
    ensures var r := OnMsg1(c, n, h, m); HandOk(c, r.hand, Said(said, m, r), false) && !r.hand.authed
  {
    hide Hash, Identity, TrySecrets, ProbeOf;
  }

  /** A refusal answers nothing and leaves the transcript alone. */
  ghost predicate Refused(h: Hand, r: Reply) {
    && r.out.None? && !r.hand.authed && r.hand.th == h.th && r.hand.root == h.root && r.hand.peerEph == h.peerEph
    && (r.hand.myEph.Some? ==> h.myEph.Some?)
  }

  lemma Msg2Refused(c: Crypto, n: Node, h: Hand, m: Bytes)
    requires !h.authed
    ensures var r := OnMsg2(c, n, h, m); r.hand.authed || Refused(h, r)
  {
    hide Hash, Identity;
  }

  lemma Msg3Refused(c: Crypto, n: Node, h: Hand, m: Bytes)
    requires !h.authed
    ensures var r := OnMsg3(c, n, h, m); r.hand.authed || Refused(h, r)
  {
    hide Hash, Identity;
  }

  lemma RefusedOk(c: Crypto, h: Hand, said: seq<Bytes>, weDialed: bool, r: Reply)
    requires HandOk(c, h, said, weDialed) && !h.authed && Refused(h, r) && (!weDialed ==> h.peerEph.Some?)
    ensures HandOk(c, r.hand, said, weDialed)
  {
  }

  lemma SessionOk(c: Crypto, h: Hand, s: Session, weDialed: bool)
    requires Authentic(c, h, s, weDialed)
    ensures HandOk(c, h, [s.w1, s.w2, s.w3], weDialed)
  {
    var said := [s.w1, s.w2, s.w3];
    assert s == Session(h.root, said[0], said[1], said[2], s.ee, s.kem, s.secret);
  }

  lemma Msg2Ok(c: Crypto, n: Node, h: Hand, said: seq<Bytes>, m: Bytes)
    requires HandOk(c, h, said, true) && !h.authed
    ensures var r := OnMsg2(c, n, h, m);
            && HandOk(c, r.hand, Said(said, m, r), true)
            && (r.hand.authed ==> r.out.Some? && r.hand.peer == Some(n.dialed) && n.dialed != n.own && n.admits(n.dialed))
  {
    hide Hash, Identity;
    var r := OnMsg2(c, n, h, m);
    Msg2Refused(c, n, h, m);
    if !r.hand.authed {
      RefusedOk(c, h, said, true, r);
    } else {
      var ee, kem := c.dh(h.myEph.value, m[..32]).value, c.decaps(c.kemKeys(h.myKem.value).sk, m[32..1120]).value;
      var s := Session(h.root, said[0], m, r.out.value, ee, kem, h.contactSecret.value);
      var hs := SignedBy(c, s, true);
      var sig := c.open(Hash(c, Msg2Key(ee, kem, h.contactSecret.value, hs)), ZERO_NPUB, m[1120..]);
      assert c.verify(n.dialed, sig.value, Identity(h.root, hs, n.dialed));
      assert Authentic(c, r.hand, s, true);
      assert Said(said, m, r) == [said[0], m, r.out.value];
      SessionOk(c, r.hand, s, true);
    }
  }

  lemma Msg3Ok(c: Crypto, n: Node, h: Hand, said: seq<Bytes>, m: Bytes)
    requires HandOk(c, h, said, false) && !h.authed && h.peerEph.Some?
    ensures var r := OnMsg3(c, n, h, m);
            && HandOk(c, r.hand, Said(said, m, r), false)
            && (r.hand.authed ==> r.hand.peer.Some? && r.hand.peer.value != n.own && n.admits(r.hand.peer.value))
            && (r.hand.authed && n.expects.Some? ==> r.hand.peer == n.expects)
  {
    hide Hash, Identity;
    var r := OnMsg3(c, n, h, m);
    Msg3Refused(c, n, h, m);
    if !r.hand.authed {
      RefusedOk(c, h, said, false, r);
    } else {
      var s := Session(h.root, said[0], said[1], m, h.ee.value, h.kem.value, h.contactSecret.value);
      var plain := c.open(Hash(c, Msg3Key(s.ee, s.kem, s.secret, h.th)), ZERO_NPUB, m).value;
      assert c.verify(plain[..PK_LEN], plain[PK_LEN..PK_LEN + SIG_LEN], Identity(h.root, h.th, plain[..PK_LEN]));
      assert Derived(c, r.hand, s, false);
      assert r.hand.peer == Some(plain[..PK_LEN]);
      assert h.th == SignedBy(c, s, false);
      assert Proves(c, r.hand, s, false);
      assert Said(said, m, r) == [said[0], said[1], m];
      SessionOk(c, r.hand, s, false);
    }
  }

  /** Every message keeps it: whatever arrives, an end that authenticates did so over a whole
      session, in which the peer it names, another than itself, signed the transcript. */
  lemma MessageOk(c: Crypto, n: Node, h: Hand, said: seq<Bytes>, weDialed: bool, m: Bytes)
    requires HandOk(c, h, said, weDialed) && !h.authed
    ensures var r := OnMessage(c, n, h, weDialed, m);
            && HandOk(c, r.hand, Said(said, m, r), weDialed)
            && (r.hand.authed ==> r.hand.peer.Some? && r.hand.peer.value != n.own && n.admits(r.hand.peer.value))
            && (r.hand.authed ==> r.hand.sendKey.Some? && r.hand.recvKey.Some?)
  {
    hide HandOk, OnMsg1, OnMsg2, OnMsg3;
    if !(h.closed || h.stalled) {
      if weDialed { Msg2Ok(c, n, h, said, m); }
      else if h.peerEph.Some? { Msg3Ok(c, n, h, said, m); }
      else { Msg1Ok(c, n, h, said, m); }
    }
    AuthedKeyed(c, OnMessage(c, n, h, weDialed, m).hand, Said(said, m, OnMessage(c, n, h, weDialed, m)), weDialed);
  }

  lemma AuthedKeyed(c: Crypto, h: Hand, said: seq<Bytes>, weDialed: bool)
    ensures HandOk(c, h, said, weDialed) && h.authed ==> h.sendKey.Some? && h.recvKey.Some?
  {
  }

  /** From its first message on, a dialer that authenticates did so over the two it sent and the
      one it got, with the peer it dialed, who signed them. */
  lemma DialerDerives(c: Crypto, n: Node, root: Bytes, secret: Bytes, w2: Bytes)
    ensures var m1 := SendMsg1(c, n, Opening(root, Some(secret)));
            var m3 := OnMsg2(c, n, m1.hand, w2);
            m3.hand.authed ==>
              m3.out.Some? && m3.hand.peer == Some(n.dialed) && n.dialed != n.own
              && exists ee, kem, own :: Authentic(c, m3.hand, Session(root, m1.out.value, w2, m3.out.value, ee, kem, own), true)
  {
    hide Hash, Identity, SendMsg1, OnMsg2;
    var m1 := SendMsg1(c, n, Opening(root, Some(secret)));
    SendMsg1Ok(c, n, Opening(root, Some(secret)));
    Unauthed(c, n, root, secret);
    Msg2Ok(c, n, m1.hand, [m1.out.value], w2);
  }

  lemma Unauthed(c: Crypto, n: Node, root: Bytes, secret: Bytes)
    ensures var r := SendMsg1(c, n, Opening(root, Some(secret)));
            !r.hand.authed && r.out.Some? && forall m :: OnMsg2(c, n, r.hand, m).hand.root == root
  {
    hide Hash, Identity;
  }

  /** An accept that authenticates did so over the messages it got and its answer, under one of
      its own contact secrets, with a peer other than itself who signed them. */
  lemma AcceptDerives(c: Crypto, n: Node, root: Bytes, w1: Bytes, w3: Bytes)
    ensures var m2 := OnMsg1(c, n, Opening(root, None), w1);
            m2.out.Some? ==>
              var m4 := OnMsg3(c, n, m2.hand, w3);
              m4.hand.authed ==>
                m4.hand.peer.Some? && m4.hand.peer.value != n.own
                && exists ee, kem, secret :: secret in n.secrets.value
                     && Authentic(c, m4.hand, Session(root, w1, m2.out.value, w3, ee, kem, secret), false)
  {
    hide Hash, Identity;
    var m2 := OnMsg1(c, n, Opening(root, None), w1);
    if m2.out.Some? {
      TrySecretsOne(c, n.secrets.value, ProbeOf(c, root, w1), w1[1217..], None);
      var m4 := OnMsg3(c, n, m2.hand, w3);
      Msg1Ok(c, n, Opening(root, None), [], w1);
      Msg3Ok(c, n, m2.hand, [w1, m2.out.value], w3);
      if m4.hand.authed {
        var ee, kem, secret :| Authentic(c, m4.hand, Session(root, w1, m2.out.value, w3, ee, kem, secret), false);
        assert m4.hand.contactSecret == m2.hand.contactSecret;
      }
    }
  }

  lemma {:induction false} TrySecretsOne(c: Crypto, secrets: seq<Bytes>, ctx: Bytes, seal: Bytes, last: Option<Bytes>)
    ensures var t := TrySecrets(c, secrets, ctx, seal, last); t.ok ==> t.secret.Some? && t.secret.value in secrets
    decreases |secrets|
  {
    if secrets != [] { TrySecretsOne(c, secrets[1..], ctx, seal, Some(secrets[0])); }
  }

  /** Where the hash does not collide, a key in common means the whole session in common, in the
      same direction: no key of one way is ever one of the other. */
  lemma EqualKeysEqualSessions(c: Crypto, a: Session, b: Session)
    requires Widths(c) && SessionSized(a) && SessionSized(b) && Injective(c, Inputs(c, a) + Inputs(c, b))
    ensures Hash(c, I2R(c, a)) == Hash(c, I2R(c, b)) <==> a == b
    ensures Hash(c, R2I(c, a)) == Hash(c, R2I(c, b)) <==> a == b
    ensures Hash(c, I2R(c, a)) != Hash(c, R2I(c, b))
  {
    hide Preimage, Hash, I2R, R2I, H1, H2, H3;
    SessionPurposes(c, a);
    SessionPurposes(c, b);
    Apart(c, I2R(c, a), R2I(c, b), Inputs(c, a) + Inputs(c, b));
    if Hash(c, I2R(c, a)) == Hash(c, I2R(c, b)) {
      Apart(c, I2R(c, a), I2R(c, b), Inputs(c, a) + Inputs(c, b));
      SameTranscript(c, a, b);
    }
    if Hash(c, R2I(c, a)) == Hash(c, R2I(c, b)) {
      Apart(c, R2I(c, a), R2I(c, b), Inputs(c, a) + Inputs(c, b));
      SameTranscript(c, a, b);
    }
  }

  lemma SessionPurposes(c: Crypto, s: Session)
    requires Widths(c) && SessionSized(s)
    ensures Sized(H1(c, s)) && Sized(H2(c, s)) && Sized(H3(c, s)) && Sized(I2R(c, s)) && Sized(R2I(c, s))
    ensures I2R(c, s).ToResponder? && R2I(c, s).ToInitiator?
    ensures var i := I2R(c, s); i.ToResponder? && i.ee == s.ee && i.kem == s.kem && i.secret == s.secret && i.th == Hash(c, H3(c, s))
    ensures var i := R2I(c, s); i.ToInitiator? && i.ee == s.ee && i.kem == s.kem && i.secret == s.secret && i.th == Hash(c, H3(c, s))
  {
    hide Preimage;
  }

  lemma Apart(c: Crypto, p: Purpose, q: Purpose, ps: set<Purpose>)
    requires Sized(p) && Sized(q) && p in ps && q in ps && Injective(c, ps)
    ensures Hash(c, p) == Hash(c, q) ==> p == q
  {
    hide Sized, Hash;
    if Hash(c, p) == Hash(c, q) { PreimagesSeparate(p, q); }
  }

  lemma SameTranscript(c: Crypto, a: Session, b: Session)
    requires Widths(c) && SessionSized(a) && SessionSized(b) && Injective(c, Inputs(c, a) + Inputs(c, b))
    requires a.ee == b.ee && a.kem == b.kem && a.secret == b.secret && Hash(c, H3(c, a)) == Hash(c, H3(c, b))
    ensures a == b
  {
    hide Preimage, Hash, Injective;
    SessionPurposes(c, a);
    SessionPurposes(c, b);
    var ps := Inputs(c, a) + Inputs(c, b);
    Apart(c, H3(c, a), H3(c, b), ps);
    Apart(c, H2(c, a), H2(c, b), ps);
    Apart(c, H1(c, a), H1(c, b), ps);
  }

  // ── who the peer is ────────────────────────────────────────────────────────────────

  /** The session a dialer has when it authenticates, from what it held and what it got. */
  function DialerSession(c: Crypto, n: Node, root: Bytes, secret: Bytes, w2: Bytes): Option<Session> {
    var m1 := SendMsg1(c, n, Opening(root, Some(secret)));
    var m3 := OnMsg2(c, n, m1.hand, w2);
    if |w2| != M2_LEN || m3.out.None? then None
    else
      var ee, kem := c.dh(n.ephSk, w2[..32]), c.decaps(c.kemKeys(n.kemSeed).sk, w2[32..1120]);
      if ee.None? || kem.None? then None
      else Some(Session(root, m1.out.value, w2, m3.out.value, ee.value, kem.value, secret))
  }

  /** The session an accept has once it has answered, with the last message it then got. */
  function AcceptSession(c: Crypto, n: Node, root: Bytes, w1: Bytes, w3: Bytes): Option<Session> {
    var m2 := OnMsg1(c, n, Opening(root, None), w1);
    if m2.out.None? || m2.hand.ee.None? || m2.hand.kem.None? || m2.hand.contactSecret.None? then None
    else Some(Session(root, w1, m2.out.value, w3, m2.hand.ee.value, m2.hand.kem.value, m2.hand.contactSecret.value))
  }

  /** The dialer's last message is its own identity and signature, sealed for just that session. */
  lemma DialerSeals(c: Crypto, n: Node, root: Bytes, secret: Bytes, w2: Bytes)
    ensures var m3 := OnMsg2(c, n, SendMsg1(c, n, Opening(root, Some(secret))).hand, w2);
            m3.hand.authed ==>
              DialerSession(c, n, root, secret, w2).Some?
              && var s := DialerSession(c, n, root, secret, w2).value;
                 Derived(c, m3.hand, s, true) && |s.w2| == M2_LEN
                 && s.w3 == c.seal(Hash(c, Msg3Key(s.ee, s.kem, s.secret, Hash(c, H2(c, s)))), ZERO_NPUB,
                                   n.own + c.sign(n.own, Identity(root, Hash(c, H2(c, s)), n.own)))
  {
    hide Hash, Identity;
  }

  /** An accept names whoever its last message opens to, under just that session. */
  lemma AcceptOpens(c: Crypto, n: Node, root: Bytes, w1: Bytes, w3: Bytes)
    ensures var m2 := OnMsg1(c, n, Opening(root, None), w1);
            m2.out.Some? ==>
              var m4 := OnMsg3(c, n, m2.hand, w3);
              m4.hand.authed ==>
                AcceptSession(c, n, root, w1, w3).Some?
                && var s := AcceptSession(c, n, root, w1, w3).value;
                   Derived(c, m4.hand, s, false) && |s.w3| == M3_LEN
                   && var plain := c.open(Hash(c, Msg3Key(s.ee, s.kem, s.secret, Hash(c, H2(c, s)))), ZERO_NPUB, w3);
                      plain.Some? && |plain.value| >= PK_LEN && m4.hand.peer == Some(plain.value[..PK_LEN])
  {
    hide Hash, Identity, TrySecrets, ProbeOf;
    Msg1Ok(c, n, Opening(root, None), [], w1);
  }

  /** The answer an accept gave, as the dialer opens it. */
  lemma AcceptSeals(c: Crypto, n: Node, root: Bytes, w1: Bytes, w3: Bytes)
    requires Widths(c)
    ensures AcceptSession(c, n, root, w1, w3).Some? ==>
              var s := AcceptSession(c, n, root, w1, w3).value;
              var hs := SignedBy(c, s, true);
              s.root == root && s.w3 == w3 && |s.w1| == M1_LEN && |s.w2| == M2_LEN && |s.ee| == 32 && |s.kem| == 32
              && s.w2[1120..] == c.seal(Hash(c, Msg2Key(s.ee, s.kem, s.secret, hs)), ZERO_NPUB, c.sign(n.own, Identity(root, hs, n.own)))
  {
    hide Hash, Identity, TrySecrets, ProbeOf;
    var m2 := OnMsg1(c, n, Opening(root, None), w1);
    if AcceptSession(c, n, root, w1, w3).Some? {
      var kem := c.encaps(w1[33..1217], n.coins).value;
      var head := c.pub(n.ephSk) + kem.ct;
      assert m2.out.value[..1120] == head && m2.out.value[1120..] == m2.out.value[|head|..];
    }
  }

  lemma DialerChecks(c: Crypto, n: Node, root: Bytes, secret: Bytes, w2: Bytes)
    ensures var m3 := OnMsg2(c, n, SendMsg1(c, n, Opening(root, Some(secret))).hand, w2);
            m3.hand.authed && DialerSession(c, n, root, secret, w2).Some? ==>
              m3.hand.peer == Some(n.dialed)
              && var s := DialerSession(c, n, root, secret, w2).value;
                 var hs := SignedBy(c, s, true);
                 var sig := c.open(Hash(c, Msg2Key(s.ee, s.kem, s.secret, hs)), ZERO_NPUB, w2[1120..]);
                 sig.Some? && c.verify(n.dialed, sig.value, Identity(root, hs, n.dialed))
  {
    hide Hash, Identity;
  }

  /** Whatever messages passed between and around them: where the hash does not collide on the
      two sessions, a dialer and an accept that hold each other's keys name each other. The
      accept names the dialer, since the last message opens to what the dialer sealed in it; and
      the dialer names the accept, if no identity but the accept's own verifies its signature. */
  lemma EqualKeysNameEachOther(c: Crypto, i: Node, r: Node, rootI: Bytes, secret: Bytes, w2: Bytes,
                               rootR: Bytes, w1: Bytes, w3: Bytes)
    requires Lawful(c) && Widths(c) && |rootI| == |rootR| == |secret| == |i.own| == 32
    requires var m3 := OnMsg2(c, i, SendMsg1(c, i, Opening(rootI, Some(secret))).hand, w2);
             var m2 := OnMsg1(c, r, Opening(rootR, None), w1);
             m3.hand.authed && m2.out.Some?
             && var m4 := OnMsg3(c, r, m2.hand, w3); m4.hand.authed && m3.hand.sendKey == m4.hand.recvKey
    requires var si, sr := DialerSession(c, i, rootI, secret, w2), AcceptSession(c, r, rootR, w1, w3);
             si.Some? && sr.Some? ==> |sr.value.secret| == 32 && Injective(c, Inputs(c, si.value) + Inputs(c, sr.value))
    ensures var m3 := OnMsg2(c, i, SendMsg1(c, i, Opening(rootI, Some(secret))).hand, w2);
            var m4 := OnMsg3(c, r, OnMsg1(c, r, Opening(rootR, None), w1).hand, w3);
            && m4.hand.peer == Some(i.own) && DialerSession(c, i, rootI, secret, w2) == AcceptSession(c, r, rootR, w1, w3)
            && ((forall id, at :: c.verify(id, c.sign(r.own, Identity(rootR, at, r.own)), Identity(rootR, at, id)) ==> id == r.own)
                ==> m3.hand.peer == Some(r.own))
  {
    hide Hash, Identity, SendMsg1, OnMsg1, OnMsg2, OnMsg3, DialerSession, AcceptSession, Injective, Inputs, SignedBy, H1, H2, H3, I2R, R2I;
    DialerSeals(c, i, rootI, secret, w2);
    DialerSized(c, i, rootI, secret, w2);
    DialerChecks(c, i, rootI, secret, w2);
    AcceptOpens(c, r, rootR, w1, w3);
    AcceptSeals(c, r, rootR, w1, w3);
    var si, sr := DialerSession(c, i, rootI, secret, w2).value, AcceptSession(c, r, rootR, w1, w3).value;
    EqualKeysEqualSessions(c, si, sr);
    var plain := i.own + c.sign(i.own, Identity(rootI, Hash(c, H2(c, si)), i.own));
    assert plain[..PK_LEN] == i.own;
  }

  lemma DialerSized(c: Crypto, n: Node, root: Bytes, secret: Bytes, w2: Bytes)
    requires Lawful(c) && Widths(c) && |root| == |secret| == |n.own| == 32
    ensures var m3 := OnMsg2(c, n, SendMsg1(c, n, Opening(root, Some(secret))).hand, w2);
            m3.hand.authed && DialerSession(c, n, root, secret, w2).Some? ==>
              SessionSized(DialerSession(c, n, root, secret, w2).value) && DialerSession(c, n, root, secret, w2).value.root == root
              && DialerSession(c, n, root, secret, w2).value.w2 == w2
  {
    hide Hash, Identity;
    FirstMessage(c, n, root, secret);
  }
}
