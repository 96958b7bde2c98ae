/** The channel's three-message handshake (WASM/transport/src/ake.js:57-67, 581-759), as functions
    on values over abstract primitives with their laws. When the messages arrive as they were
    sent both ends authenticate and agree; equal session keys force equal secrets and
    transcripts; and no two derivations of different purposes hash the same bytes. */
module Handshake {
  import opened Base

  const SUITE: byte := 3
  const PK_LEN: nat := 32
  const EPH_LEN: nat := 32
  const SIG_LEN: nat := 64
  const TAG_LEN: nat := 16
  const KEM_PK_LEN: nat := 1184
  const KEM_CT_LEN: nat := 1088
  const M1_LEN: nat := 1 + EPH_LEN + KEM_PK_LEN + TAG_LEN
  const M2_LEN: nat := EPH_LEN + KEM_CT_LEN + SIG_LEN + TAG_LEN
  const M3_LEN: nat := PK_LEN + SIG_LEN + TAG_LEN
  const ZERO_NPUB: Bytes := seq(12, _ => 0)

  function Ascii(s: string): (b: Bytes)
    ensures |b| == |s|
  {
    seq(|s|, i requires 0 <= i < |s| => (s[i] as int % 256) as byte)
  }

  const LABEL_REKEY: Bytes := Ascii("seedkernel-session-rekey-v1") + [0]
  const LABEL_PROBE: Bytes := Ascii("seedkernel-c-probe-v1") + [0]
  const LABEL_M2: Bytes := Ascii("seedkernel-c-msg2-v1") + [0]
  const LABEL_M3: Bytes := Ascii("seedkernel-c-msg3-v1") + [0]
  const LABEL_I2R: Bytes := Ascii("seedkernel-session-i->r-v1") + [0]
  const LABEL_R2I: Bytes := Ascii("seedkernel-session-r->i-v1") + [0]
  const DOMAIN_CHANNEL: Bytes := Ascii("seedkernel-channel-id-v1") + [0]
  const DOMAIN_CONTACT: Bytes := Ascii("seedkernel-contact-secret-v1") + [0]

  // ── the primitives ─────────────────────────────────────────────────────────────────

  datatype KemPair = KemPair(pk: Bytes, sk: Bytes)
  datatype Encapsulated = Encapsulated(ct: Bytes, ss: Bytes)

  datatype Crypto = Crypto(
    hash: Bytes -> Bytes,
    pub: Bytes -> Bytes,
    dh: (Bytes, Bytes) -> Option<Bytes>,
    kemKeys: Bytes -> KemPair,
    encaps: (Bytes, Bytes) -> Option<Encapsulated>,
    decaps: (Bytes, Bytes) -> Option<Bytes>,
    seal: (Bytes, Bytes, Bytes) -> Bytes,
    open: (Bytes, Bytes, Bytes) -> Option<Bytes>,
    sign: (Bytes, Bytes) -> Bytes,
    verify: (Bytes, Bytes, Bytes) -> bool)

  /** Diffie-Hellman commutes, decapsulating undoes encapsulating, opening undoes sealing, and a
      signature by an identity's holder verifies. */
  ghost predicate Lawful(c: Crypto) {
    && (forall a, b :: c.dh(a, c.pub(b)) == c.dh(b, c.pub(a)))
    && (forall seed, coins :: var e := c.encaps(c.kemKeys(seed).pk, coins);
          e.Some? ==> c.decaps(c.kemKeys(seed).sk, e.value.ct) == Some(e.value.ss))
    && (forall k, n, m :: c.open(k, n, c.seal(k, n, m)) == Some(m))
    && (forall id, m :: c.verify(id, c.sign(id, m), m))
  }

  ghost predicate Widths(c: Crypto) {
    && (forall x :: |c.hash(x)| == 32) && (forall sk :: |c.pub(sk)| == EPH_LEN)
    && (forall seed :: |c.kemKeys(seed).pk| == KEM_PK_LEN)
    && (forall a, b :: c.dh(a, b).Some? ==> |c.dh(a, b).value| == 32)
    && (forall pk, coins :: c.encaps(pk, coins).Some? ==>
          |c.encaps(pk, coins).value.ct| == KEM_CT_LEN && |c.encaps(pk, coins).value.ss| == 32)
    && (forall sk, ct :: c.decaps(sk, ct).Some? ==> |c.decaps(sk, ct).value| == 32)
    && (forall k, n, m :: |c.seal(k, n, m)| == |m| + TAG_LEN)
    && (forall id, m :: |c.sign(id, m)| == SIG_LEN)
  }

  // ── what is hashed, and for what ───────────────────────────────────────────────────

  datatype Purpose =
    | Root(networkKey: Bytes)
    | Contact(sig: Bytes)
    | ProbeContext(root: Bytes, suite: Bytes, eph: Bytes, kemPk: Bytes)
    | AfterMsg1(root: Bytes, w1: Bytes)
    | BeforeSig(h1: Bytes, head: Bytes)
    | AfterMsg2(h1: Bytes, w2: Bytes)
    | AfterMsg3(h2: Bytes, w3: Bytes)
    | ProbeKey(secret: Bytes, ctx: Bytes)
    | Msg2Key(ee: Bytes, kem: Bytes, secret: Bytes, hs: Bytes)
    | Msg3Key(ee: Bytes, kem: Bytes, secret: Bytes, h2: Bytes)
    | ToResponder(ee: Bytes, kem: Bytes, secret: Bytes, th: Bytes)
    | ToInitiator(ee: Bytes, kem: Bytes, secret: Bytes, th: Bytes)
    | Rekey(key: Bytes)

  function Preimage(p: Purpose): Bytes {
    match p
    case Root(key) => DOMAIN_CHANNEL + key
    case Contact(sig) => DOMAIN_CONTACT + sig
    case ProbeContext(root, suite, eph, kemPk) => root + suite + eph + kemPk
    case AfterMsg1(root, w1) => root + w1
    case BeforeSig(h1, head) => h1 + head
    case AfterMsg2(h1, w2) => h1 + w2
    case AfterMsg3(h2, w3) => h2 + w3
    case ProbeKey(secret, ctx) => secret + ctx + LABEL_PROBE
    case Msg2Key(ee, kem, secret, hs) => ee + kem + secret + hs + LABEL_M2
    case Msg3Key(ee, kem, secret, h2) => ee + kem + secret + h2 + LABEL_M3
    case ToResponder(ee, kem, secret, th) => ee + kem + secret + th + LABEL_I2R
    case ToInitiator(ee, kem, secret, th) => ee + kem + secret + th + LABEL_R2I
    case Rekey(key) => key + LABEL_REKEY
  }

  function Hash(c: Crypto, p: Purpose): Bytes { c.hash(Preimage(p)) }

  predicate Four(a: Bytes, b: Bytes, c: Bytes, d: Bytes) { |a| == |b| == |c| == |d| == 32 }

  /** Every field has its fixed width. */
  predicate Sized(p: Purpose) {
    match p
    case Root(key) => |key| == 32
    case Contact(sig) => |sig| == SIG_LEN
    case ProbeContext(root, suite, eph, kemPk) => |root| == 32 && |suite| == 1 && |eph| == EPH_LEN && |kemPk| == KEM_PK_LEN
    case AfterMsg1(root, w1) => |root| == 32 && |w1| == M1_LEN
    case BeforeSig(h1, head) => |h1| == 32 && |head| == EPH_LEN + KEM_CT_LEN
    case AfterMsg2(h1, w2) => |h1| == 32 && |w2| == M2_LEN
    case AfterMsg3(h2, w3) => |h2| == 32 && |w3| == M3_LEN
    case ProbeKey(secret, ctx) => |secret| == 32 && |ctx| == 32
    case Msg2Key(ee, kem, secret, hs) => Four(ee, kem, secret, hs)
    case Msg3Key(ee, kem, secret, h2) => Four(ee, kem, secret, h2)
    case ToResponder(ee, kem, secret, th) => Four(ee, kem, secret, th)
    case ToInitiator(ee, kem, secret, th) => Four(ee, kem, secret, th)
    case Rekey(key) => |key| == 32
  }

  /** Which purpose, by number. */
  function Kind(p: Purpose): nat {
    match p
    case Root(_) => 0
    case Contact(_) => 1
    case ProbeContext(_, _, _, _) => 2
    case AfterMsg1(_, _) => 3
    case BeforeSig(_, _) => 4
    case AfterMsg2(_, _) => 5
    case AfterMsg3(_, _) => 6
    case ProbeKey(_, _) => 7
    case Msg2Key(_, _, _, _) => 8
    case Msg3Key(_, _, _, _) => 9
    case ToResponder(_, _, _, _) => 10
    case ToInitiator(_, _, _, _) => 11
    case Rekey(_) => 12
  }

  /** The bytes hashed for each kind: all of different lengths but for two pairs of labels. */
  function Size(kind: nat): nat {
    if kind == 0 then 57 else if kind == 1 then 93 else if kind == 2 then 1249 else if kind == 3 then 1265
    else if kind == 4 then 1152 else if kind == 5 then 1232 else if kind == 6 then 144 else if kind == 7 then 86
    else if kind == 8 || kind == 9 then 149 else if kind == 10 || kind == 11 then 155 else 60
  }

  lemma SizeOf(p: Purpose)
    requires Sized(p)
    ensures |Preimage(p)| == Size(Kind(p))
  {
  }

  lemma LabelsDiffer()
    ensures LABEL_M2[16] != LABEL_M3[16] && LABEL_I2R[19] != LABEL_R2I[19]
  {
    assert LABEL_M2[16] == ('2' as int % 256) as byte && LABEL_M3[16] == ('3' as int % 256) as byte;
    assert LABEL_I2R[19] == ('i' as int % 256) as byte && LABEL_R2I[19] == ('r' as int % 256) as byte;
  }

  lemma FourLast(a: Bytes, b: Bytes, c: Bytes, d: Bytes, tag: Bytes)
    requires Four(a, b, c, d)
    ensures var all := a + b + c + d + tag;
            all[128..] == tag && all[..32] == a && all[32..64] == b && all[64..96] == c && all[96..128] == d
  {
  }

  /** Bytes hashed for two purposes are never the same, and for one only with the same fields. */
  lemma PreimagesSeparate(p: Purpose, q: Purpose)
    requires Sized(p) && Sized(q) && Preimage(p) == Preimage(q)
    ensures p == q
  {
    hide Preimage, Sized;
    SizeOf(p);
    SizeOf(q);
    if Kind(p) == 8 || Kind(p) == 9 { SameFour(p, q); }
    else if Kind(p) == 10 || Kind(p) == 11 { SameFour(p, q); }
    else { SameFields(p, q); }
  }

  predicate Keyed(p: Purpose) { p.Msg2Key? || p.Msg3Key? || p.ToResponder? || p.ToInitiator? }

  lemma SameFour(p: Purpose, q: Purpose)
    requires Sized(p) && Sized(q) && Preimage(p) == Preimage(q)
    requires Keyed(p) && Keyed(q) && ((p.Msg2Key? || p.Msg3Key?) <==> (q.Msg2Key? || q.Msg3Key?))
    ensures p == q
  {
    LabelsDiffer();
    KeyedParts(p);
    KeyedParts(q);
    hide Preimage;
  }

  function LabelOf(p: Purpose): Bytes {
    match p
    case Msg2Key(_, _, _, _) => LABEL_M2
    case Msg3Key(_, _, _, _) => LABEL_M3
    case ToResponder(_, _, _, _) => LABEL_I2R
    case _ => LABEL_R2I
  }

  function Ctx(p: Purpose): Bytes
    requires Keyed(p)
  {
    match p
    case Msg2Key(_, _, _, hs) => hs
    case Msg3Key(_, _, _, h2) => h2
    case ToResponder(_, _, _, th) => th
    case ToInitiator(_, _, _, th) => th
  }

  lemma KeyedParts(p: Purpose)
    requires Sized(p) && Keyed(p)
    ensures var all := Preimage(p);
            |all| >= 128 && all[128..] == LabelOf(p) && all[..32] == p.ee && all[32..64] == p.kem && all[64..96] == p.secret && all[96..128] == Ctx(p)
  {
    FourLast(p.ee, p.kem, p.secret, Ctx(p), LabelOf(p));
  }

  /** Same-sized fields in the same order are told apart. */
  lemma SplitAt(a: Bytes, b: Bytes, x: Bytes, y: Bytes)
    requires a + b == x + y && |a| == |x|
    ensures a == x && b == y
  {
    assert (a + b)[..|a|] == a && (x + y)[..|x|] == x && (a + b)[|a|..] == b && (x + y)[|x|..] == y;
  }

  lemma SplitThree(a: Bytes, b: Bytes, c: Bytes, x: Bytes, y: Bytes, z: Bytes)
    requires a + b + c == x + y + z && |a| == |x| && |b| == |y|
    ensures a == x && b == y && c == z
  {
    SplitAt(a + b, c, x + y, z);
    SplitAt(a, b, x, y);
  }

  lemma SplitFour(a: Bytes, b: Bytes, c: Bytes, d: Bytes, x: Bytes, y: Bytes, z: Bytes, w: Bytes)
    requires a + b + c + d == x + y + z + w && |a| == |x| && |b| == |y| && |c| == |z|
    ensures a == x && b == y && c == z && d == w
  {
    SplitAt(a + b + c, d, x + y + z, w);
    SplitThree(a, b, c, x, y, z);
  }

  lemma SameFields(p: Purpose, q: Purpose)
    requires Sized(p) && Sized(q) && Preimage(p) == Preimage(q) && Kind(p) == Kind(q) && !Keyed(p)
    ensures p == q
  {
    hide Sized, Preimage;
    match p
    case Root(_) => SameDomain(p, q);
    case Contact(_) => SameDomain(p, q);
    case ProbeContext(_, _, _, _) => SameContext(p, q);
    case ProbeKey(_, _) => SameProbe(p, q);
    case Rekey(_) => SameRekey(p, q);
    case _ => SameMessage(p, q);
  }

  lemma SameDomain(p: Purpose, q: Purpose)
    requires Preimage(p) == Preimage(q) && ((p.Root? && q.Root?) || (p.Contact? && q.Contact?))
    ensures p == q
  {
    match p
    case Root(key) => SplitAt(DOMAIN_CHANNEL, key, DOMAIN_CHANNEL, q.networkKey);
    case Contact(sig) => SplitAt(DOMAIN_CONTACT, sig, DOMAIN_CONTACT, q.sig);
  }

  lemma SameContext(p: Purpose, q: Purpose)
    requires Sized(p) && Sized(q) && Preimage(p) == Preimage(q) && p.ProbeContext? && q.ProbeContext?
    ensures p == q
  {
    SplitFour(p.root, p.suite, p.eph, p.kemPk, q.root, q.suite, q.eph, q.kemPk);
  }

  lemma SameProbe(p: Purpose, q: Purpose)
    requires Sized(p) && Sized(q) && Preimage(p) == Preimage(q) && p.ProbeKey? && q.ProbeKey?
    ensures p == q
  {
    SplitThree(p.secret, p.ctx, LABEL_PROBE, q.secret, q.ctx, LABEL_PROBE);
  }

  lemma SameRekey(p: Purpose, q: Purpose)
    requires Sized(p) && Sized(q) && Preimage(p) == Preimage(q) && p.Rekey? && q.Rekey?
    ensures p == q
  {
    SplitAt(p.key, LABEL_REKEY, q.key, LABEL_REKEY);
  }

  /** A hash so far, and a message behind it. */
  lemma SameMessage(p: Purpose, q: Purpose)
    requires Sized(p) && Sized(q) && Preimage(p) == Preimage(q)
    requires (p.AfterMsg1? && q.AfterMsg1?) || (p.BeforeSig? && q.BeforeSig?)
             || (p.AfterMsg2? && q.AfterMsg2?) || (p.AfterMsg3? && q.AfterMsg3?)
    ensures p == q
  {
    match p
    case AfterMsg1(root, w1) => SplitAt(root, w1, q.root, q.w1);
    case BeforeSig(h1, head) => SplitAt(h1, head, q.h1, q.head);
    case AfterMsg2(h1, w2) => SplitAt(h1, w2, q.h1, q.w2);
    case AfterMsg3(h2, w3) => SplitAt(h2, w3, q.h2, q.w3);
  }
}
