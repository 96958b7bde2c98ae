/** `Link` (WASM/transport/src/ake.js:238-841) as the object it is: its handshake steps, its pre-auth
    queue and its record layer, each proved to do what HandshakeRun and Records say. */
module Links {
  import opened Base
  import H = Handshake
  import R = HandshakeRun
  import Rec = Records
  import Ends = RecordEnds
  import Runs = RecordRuns

  const MAX_QUEUE_BYTES: nat := 1024 * 1024

  function SuiteOf(c: H.Crypto): Rec.Suite {
    Rec.Suite(c.seal, c.open, (k: Bytes) => H.Hash(c, H.Rekey(k)))
  }

  function Size(frames: seq<Bytes>): nat { if frames == [] then 0 else |frames[0]| + Size(frames[1..]) }

  lemma {:induction false} SizeSnoc(frames: seq<Bytes>, frame: Bytes)
    ensures Size(frames + [frame]) == Size(frames) + |frame|
  {
    if frames == [] {
      assert (frames + [frame])[1..] == [];
    } else {
      assert (frames + [frame])[1..] == frames[1..] + [frame];
      SizeSnoc(frames[1..], frame);
    }
  }

  class Link {
    const c: H.Crypto
    const limits: Rec.Limits
    const maxPreAuthSlices: nat
    const weDialed: bool
    var hand: R.Hand
    /** Frames queued before authentication. */
    var queue: seq<Bytes>
    var queuedBytes: int
    /** The record layer, once authenticated. */
    var records: Rec.End
    /** The handshake's messages so far, and how many frames waited for its end. */
    ghost var said: seq<Bytes>
    ghost var early: nat

    ghost function Env(): Rec.Env
      reads this
    {
      Rec.Env(SuiteOf(c), limits)
    }

    ghost predicate Queued()
      reads `queue, `queuedBytes
    {
      queuedBytes == Size(queue) && forall i :: 0 <= i < |queue| ==> queue[i] != []
    }

    /** Until it authenticates the transcript is of the messages said, and the frames queued are
        counted. From then on there is a whole session behind its keys, signed by the peer it
        names, and its record layer is as RecordEnds keeps it from those very keys. */
    ghost predicate Valid()
      reads this
    {
      && Queued() && R.HandOk(c, hand, said, weDialed)
      && (hand.authed ==>
            && hand.sendKey.Some? && hand.recvKey.Some?
            && Ends.EndOk(Env(), records, hand.sendKey.value, hand.recvKey.value, early))
    }

    constructor (c: H.Crypto, limits: Rec.Limits, maxPreAuthSlices: nat, weDialed: bool, root: Bytes, secret: Option<Bytes>)
      ensures this.c == c && this.limits == limits && this.weDialed == weDialed && this.maxPreAuthSlices == maxPreAuthSlices
      ensures Valid() && queue == [] && said == [] && hand == R.Opening(root, secret)
    {
      this.c, this.limits, this.maxPreAuthSlices, this.weDialed := c, limits, maxPreAuthSlices, weDialed;
      hand := R.Opening(root, secret);
      queue, queuedBytes := [], 0;
      records := Rec.Authenticated([], [], []);
      said, early := [], 0;
      new;
      R.OpeningOk(c, root, secret, weDialed);
    }

    // ── the handshake ──────────────────────────────────────────────────────────────────

    method Stall()
      modifies `hand
      ensures hand == R.Stall(old(hand))
    {
      if hand.stalled {
        return;
      }
      hand := hand.(stalled := true, aborted := true);
      ClearEphemeral();
    }

    method ClearEphemeral()
      modifies `hand
      ensures hand == R.Cleared(old(hand))
    {
      hand := hand.(myEph := None, myKem := None);
      hand := hand.(ee := None, kem := None);
    }

    method SendMsg1(n: R.Node) returns (w1: Bytes)
      requires Valid() && !hand.authed && weDialed && hand.contactSecret.Some?
      modifies `hand, `said
      ensures Valid() && !hand.authed && said == [w1]
      ensures R.Reply(hand, Some(w1)) == R.SendMsg1(c, n, old(hand))
    {
      hand := hand.(myEph := Some(n.ephSk), myKem := Some(n.kemSeed));
      var eph, kemPk := c.pub(n.ephSk), c.kemKeys(n.kemSeed).pk;
      var ctx := H.Hash(c, H.ProbeContext(hand.root, [H.SUITE], eph, kemPk));
      var proof := c.seal(H.Hash(c, H.ProbeKey(hand.contactSecret.value, ctx)), H.ZERO_NPUB, []);
      w1 := [H.SUITE] + eph + kemPk + proof;
      hand := hand.(th := H.Hash(c, H.AfterMsg1(hand.root, w1)));
      said := [w1];
    }

    /** Try the accept's secrets in order: the link takes each in turn, to the first that opens. */
    method OpenProbe(secrets: seq<Bytes>, ctx: Bytes, proof: Bytes) returns (ok: bool)
      modifies `hand
      ensures var t := R.TrySecrets(c, secrets, ctx, proof, old(hand).contactSecret);
              ok == t.ok && hand == old(hand).(contactSecret := t.secret)
    {
      var i := 0;
      ok := false;
      assert secrets[0..] == secrets;
      while i < |secrets| && !ok
        invariant 0 <= i <= |secrets| && hand == old(hand).(contactSecret := hand.contactSecret)
        invariant !ok ==> R.TrySecrets(c, secrets[i..], ctx, proof, hand.contactSecret)
                          == R.TrySecrets(c, secrets, ctx, proof, old(hand).contactSecret)
        invariant ok ==> R.Tried(hand.contactSecret, true) == R.TrySecrets(c, secrets, ctx, proof, old(hand).contactSecret)
        decreases |secrets| - i, !ok
      {
        hand := hand.(contactSecret := Some(secrets[i]));
        ok := c.open(H.Hash(c, H.ProbeKey(secrets[i], ctx)), H.ZERO_NPUB, proof).Some?;
        assert secrets[i..][1..] == secrets[i + 1..];
        i := i + 1;
      }
    }

    /** One whole message before authentication, whatever it is. An end that authenticates on it
        names another than itself. Announcing that may have frames sent on it, or end it, as
        `asks` says: left open, its records begin with the frames queued, oldest first, and
        otherwise those are handed over to go another way. */
    method OnMessage(n: R.Node, m: Bytes, asks: seq<Rec.Event>) returns (out: Option<Bytes>, handed: seq<Bytes>)
      requires Valid() && !hand.authed && forall ev :: ev in asks ==> Ends.Asking(ev)
      modifies `hand, `records, `queue, `queuedBytes, `said, `early
      ensures Valid() && R.Reply(hand, out) == R.OnMessage(c, n, old(hand), weDialed, m)
      ensures said == R.Said(old(said), m, R.Reply(hand, out))
      ensures hand.authed ==> hand.peer.Some? && hand.peer.value != n.own && n.admits(hand.peer.value) && queue == []
      ensures hand.authed ==> records == Ends.Welcomed(Env(), hand.sendKey.value, hand.recvKey.value, old(queue), asks)
      ensures hand.authed ==> handed == if Ends.LeftOpen(Env(), hand.sendKey.value, hand.recvKey.value, asks) then [] else old(queue)
      ensures !hand.authed ==> queue == old(queue) && handed == []
    {
      hide R.OnMsg1, R.OnMsg2, R.OnMsg3, R.HandOk, R.Said;
      R.MessageOk(c, n, hand, said, weDialed, m);
      if hand.closed || hand.stalled {
        out := None;
      } else if weDialed {
        out := OnMsg2(n, m);
      } else if hand.peerEph.Some? {
        out := OnMsg3(n, m);
      } else {
        out := OnMsg1(n, m);
      }
      said := R.Said(said, m, R.Reply(hand, out));
      handed := [];
      if hand.authed {
        handed := BecomeAuthed(asks);
      }
    }

    /** Announce the link, then seal what waited, if the link is still there to seal it. */
    method BecomeAuthed(asks: seq<Rec.Event>) returns (handed: seq<Bytes>)
      requires Queued() && R.HandOk(c, hand, said, weDialed) && hand.authed && hand.sendKey.Some? && hand.recvKey.Some?
      requires forall ev :: ev in asks ==> Ends.Asking(ev)
      modifies `records, `queue, `queuedBytes, `early
      ensures Valid() && queue == []
      ensures records == Ends.Welcomed(Env(), hand.sendKey.value, hand.recvKey.value, old(queue), asks)
      ensures handed == if Ends.LeftOpen(Env(), hand.sendKey.value, hand.recvKey.value, asks) then [] else old(queue)
    {
      hide R.HandOk, Ends.EndOk, Ends.Trace, Ends.Welcomed;
      Ends.WelcomedFronted(Env(), hand.sendKey.value, hand.recvKey.value, queue, asks);
      Ends.WelcomedOk(Env(), hand.sendKey.value, hand.recvKey.value, queue, asks);
      Ends.AuthenticatedOk(Env(), hand.sendKey.value, hand.recvKey.value, []);
      records := Rec.Authenticated(hand.sendKey.value, hand.recvKey.value, []);
      early := 0;
      Announce(asks);
      handed := [];
      if records.closed {
        handed := queue;
      } else {
        early := |queue|;
        records := records.(work := Ends.Earlies(queue) + records.work, accepted := queue + records.accepted);
      }
      queue, queuedBytes := [], 0;
    }

    /** What is done to the link while it is announced. */
    method Announce(asks: seq<Rec.Event>)
      requires Valid() && hand.authed && forall ev :: ev in asks ==> Ends.Asking(ev)
      modifies `records
      ensures Valid() && records == Ends.Trace(Env(), old(records), asks)
    {
      hide R.HandOk, Ends.EndOk, Rec.EndLink, Rec.Send;
      var i := 0;
      assert asks[0..] == asks;
      while i < |asks|
        invariant 0 <= i <= |asks| && Valid()
        invariant Ends.Trace(Env(), records, asks[i..]) == Ends.Trace(Env(), old(records), asks)
      {
        assert asks[i] in asks && asks[i..][1..] == asks[i + 1..];
        match asks[i] {
          case Sending(frame) => Send(frame);
          case Closing => Close();
          case Failing(defensive) => Abort(defensive);
        }
        i := i + 1;
      }
    }

    method OnMsg1(n: R.Node, w1: Bytes) returns (w2: Option<Bytes>)
      requires !hand.stalled
      modifies `hand
      ensures R.Reply(hand, w2) == R.OnMsg1(c, n, old(hand), w1)
    {
      hide H.Hash, R.Identity, R.TrySecrets, R.ProbeOf, R.Answer;
      if |w1| != H.M1_LEN || w1[0] != H.SUITE || n.secrets.None? {
        Stall();
        return None;
      }
      var ok := OpenProbe(n.secrets.value, R.ProbeOf(c, hand.root, w1), w1[1217..]);
      // A recording of a proved msg1 opens too; only its ephemeral key tells it apart.
      if !ok || w1[1..33] in n.seen || !n.promoted {
        Stall();
        return None;
      }
      w2 := Answer(n, w1);
    }

    method Answer(n: R.Node, w1: Bytes) returns (w2: Option<Bytes>)
      requires |w1| == H.M1_LEN && !hand.stalled
      modifies `hand
      ensures R.Reply(hand, w2) == R.Answer(c, n, old(hand), w1)
    {
      hide H.Hash, R.Identity;
      var ephI, kemPkI := w1[1..33], w1[33..1217];
      if hand.myEph.None? {
        hand := hand.(myEph := Some(n.ephSk));
      }
      var ee := c.dh(hand.myEph.value, ephI);
      if ee.None? {
        Stall();
        return None;
      }
      hand := hand.(ee := ee);
      var kem := c.encaps(kemPkI, n.coins);
      if kem.None? || hand.contactSecret.None? {
        Stall();
        return None;
      }
      hand := hand.(kem := Some(kem.value.ss), peerEph := Some(ephI));
      var h1 := H.Hash(c, H.AfterMsg1(hand.root, w1));
      var head := c.pub(hand.myEph.value) + kem.value.ct;
      var hs := H.Hash(c, H.BeforeSig(h1, head));
      var sig := c.sign(n.own, R.Identity(hand.root, hs, n.own));
      var out := head + c.seal(H.Hash(c, H.Msg2Key(hand.ee.value, hand.kem.value, hand.contactSecret.value, hs)), H.ZERO_NPUB, sig);
      hand := hand.(th := H.Hash(c, H.AfterMsg2(h1, out)));
      w2 := Some(out);
    }

    method OnMsg2(n: R.Node, w2: Bytes) returns (w3: Option<Bytes>)
      requires !hand.stalled
      modifies `hand
      ensures R.Reply(hand, w3) == R.OnMsg2(c, n, old(hand), w2)
    {
      hide H.Hash, R.Identity, R.Finish;
      if |w2| != H.M2_LEN || hand.myEph.None? || hand.myKem.None? || hand.contactSecret.None? {
        Stall();
        return None;
      }
      var head := w2[..1120];
      assert head[..32] == w2[..32] && head[32..] == w2[32..1120];
      var ee := c.dh(hand.myEph.value, head[..32]);
      if ee.None? {
        Stall();
        return None;
      }
      hand := hand.(ee := ee);
      var kem := c.decaps(c.kemKeys(hand.myKem.value).sk, head[32..]);
      if kem.None? {
        Stall();
        return None;
      }
      hand := hand.(kem := kem);
      var hs := H.Hash(c, H.BeforeSig(hand.th, head));
      var sig := c.open(H.Hash(c, H.Msg2Key(ee.value, kem.value, hand.contactSecret.value, hs)), H.ZERO_NPUB, w2[1120..]);
      if sig.None? {
        Stall();
        return None;
      }
      // From here on a refusal aborts: the dialer has named itself to no one.
      if n.dialed == n.own {
        hand := R.Abort(hand, false);
        return None;
      }
      if !c.verify(n.dialed, sig.value, R.Identity(hand.root, hs, n.dialed)) || !n.admits(n.dialed) {
        hand := R.Abort(hand, true);
        return None;
      }
      hand := hand.(peer := Some(n.dialed));
      var out := Finish(n, w2);
      w3 := Some(out);
    }

    method Finish(n: R.Node, w2: Bytes) returns (w3: Bytes)
      requires hand.ee.Some? && hand.kem.Some? && hand.contactSecret.Some?
      modifies `hand
      ensures R.Reply(hand, Some(w3)) == R.Finish(c, n, old(hand), w2)
    {
      hide H.Hash, R.Identity, R.Derive;
      var h2 := H.Hash(c, H.AfterMsg2(hand.th, w2));
      var sig := c.sign(n.own, R.Identity(hand.root, h2, n.own));
      w3 := c.seal(H.Hash(c, H.Msg3Key(hand.ee.value, hand.kem.value, hand.contactSecret.value, h2)), H.ZERO_NPUB, n.own + sig);
      hand := hand.(th := H.Hash(c, H.AfterMsg3(h2, w3)));
      DeriveSession(true);
    }

    /** Each way's key from the secrets and the transcript, which are then dropped. */
    method DeriveSession(dialed: bool)
      requires hand.ee.Some? && hand.kem.Some? && hand.contactSecret.Some?
      modifies `hand
      ensures hand == R.Derive(c, old(hand), dialed)
    {
      hide H.Hash;
      var i2r := H.Hash(c, H.ToResponder(hand.ee.value, hand.kem.value, hand.contactSecret.value, hand.th));
      if dialed {
        hand := hand.(sendKey := Some(i2r));
      } else {
        hand := hand.(recvKey := Some(i2r));
      }
      var r2i := H.Hash(c, H.ToInitiator(hand.ee.value, hand.kem.value, hand.contactSecret.value, hand.th));
      if dialed {
        hand := hand.(recvKey := Some(r2i));
      } else {
        hand := hand.(sendKey := Some(r2i));
      }
      ClearEphemeral();
      hand := hand.(authed := true);
    }

    method OnMsg3(n: R.Node, w3: Bytes) returns (none: Option<Bytes>)
      requires !hand.stalled
      modifies `hand
      ensures R.Reply(hand, none) == R.OnMsg3(c, n, old(hand), w3)
    {
      hide H.Hash, R.Identity, R.Derive;
      none := None;
      if |w3| != H.M3_LEN || hand.ee.None? || hand.kem.None? || hand.contactSecret.None? {
        Stall();
        return;
      }
      var plain := c.open(H.Hash(c, H.Msg3Key(hand.ee.value, hand.kem.value, hand.contactSecret.value, hand.th)), H.ZERO_NPUB, w3);
      if plain.None? || |plain.value| < H.PK_LEN + H.SIG_LEN {
        Stall();
        return;
      }
      var id, sig := plain.value[..H.PK_LEN], plain.value[H.PK_LEN..H.PK_LEN + H.SIG_LEN];
      if !c.verify(id, sig, R.Identity(hand.root, hand.th, id)) || id == n.own {
        Stall();
        return;
      }
      if !n.admits(id) || (n.expects.Some? && id != n.expects.value) {
        hand := R.Abort(hand, true);
        return;
      }
      hand := hand.(peer := Some(id), th := H.Hash(c, H.AfterMsg3(hand.th, w3)));
      DeriveSession(false);
    }

    // ── before authentication ──────────────────────────────────────────────────────────

    /** Queue a frame until the link authenticates, dropping the oldest past either bound and
        keeping the newest. */
    method Queue(frame: Bytes)
      requires Valid() && !hand.authed
      modifies `queue, `queuedBytes
      ensures Valid()
      ensures |frame| > limits.maxFrame - Rec.TAG_LEN || frame == [] ==> queue == old(queue)
      ensures |frame| <= limits.maxFrame - Rec.TAG_LEN && frame != [] ==>
                exists k :: 0 <= k <= |old(queue)| && queue == (old(queue) + [frame])[k..]
                  && (k > 0 ==> var more := (old(queue) + [frame])[k - 1..]; Size(more) > MAX_QUEUE_BYTES || |more| > maxPreAuthSlices)
                  && ((Size(queue) <= MAX_QUEUE_BYTES && |queue| <= maxPreAuthSlices) || queue == [frame])
    {
      if |frame| > limits.maxFrame - Rec.TAG_LEN || frame == [] {
        return;
      }
      SizeSnoc(queue, frame);
      queue := queue + [frame];
      queuedBytes := queuedBytes + |frame|;
      ghost var all := queue;
      ghost var k := 0;
      while (queuedBytes > MAX_QUEUE_BYTES || |queue| > maxPreAuthSlices) && |queue| > 1
        invariant Queued() && 0 <= k < |all| && queue == all[k..]
        invariant k > 0 ==> Size(all[k - 1..]) > MAX_QUEUE_BYTES || |all[k - 1..]| > maxPreAuthSlices
        decreases |queue|
      {
        queuedBytes := queuedBytes - |queue[0]|;
        queue := queue[1..];
        k := k + 1;
      }
      assert all[|all| - 1] == frame && queue[|queue| - 1] == frame;
      assert 0 <= k <= |old(queue)| && queue == (old(queue) + [frame])[k..];
    }

    // ── the record layer ───────────────────────────────────────────────────────────────

    /** From here nothing more is taken, and the teardown is the chain's last step. */
    method EndLink(farewell: bool, defensive: bool)
      modifies `records
      ensures records == Rec.EndLink(old(records), farewell, defensive)
    {
      if records.closed {
        // Already ended: all a failure can still do is call off the goodbye.
        if !farewell {
          records := records.(parting := false);
        }
        return;
      }
      records := records.(closed := true);
      records := records.(parting := farewell && !records.peerSaidGoodbye && records.sendEpoch < Rec.REJECT_AFTER_EPOCHS);
      records := records.(closedLocally := true);
      if defensive {
        records := records.(aborted := true);
      }
      records := records.(work := records.work + [Rec.Finish]);
    }

    /** The two ways a link is ended from outside: a goodbye to say, or a failure. */
    method Close()
      requires Valid() && hand.authed
      modifies `records
      ensures Valid() && records == Rec.Close(old(records))
    {
      hide Rec.EndLink, Ends.EndOk, R.HandOk;
      Ends.EndStepOk(Env(), records, Rec.Closing, hand.sendKey.value, hand.recvKey.value, early);
      EndLink(true, false);
    }

    method Abort(defensive: bool)
      requires Valid() && hand.authed
      modifies `records
      ensures Valid() && records == Rec.Abort(old(records), defensive)
    {
      hide Rec.EndLink, Ends.EndOk, R.HandOk;
      Ends.EndStepOk(Env(), records, Rec.Failing(defensive), hand.sendKey.value, hand.recvKey.value, early);
      EndLink(false, defensive);
    }

    /** A frame to send once authenticated: queued as a record on the work chain. */
    method Send(frame: Bytes)
      requires Valid() && hand.authed
      modifies `records
      ensures Valid() && records == Rec.Send(Env(), old(records), frame)
    {
      hide Rec.EndLink, Ends.EndOk, R.HandOk;
      Ends.EndStepOk(Env(), records, Rec.Sending(frame), hand.sendKey.value, hand.recvKey.value, early);
      if records.closed || |frame| > limits.maxFrame - Rec.TAG_LEN || frame == [] {
        return;
      }
      if records.sendEpoch >= Rec.REJECT_AFTER_EPOCHS {
        EndLink(true, false);
        return;
      }
      if records.queuedSlices >= limits.maxSlices || |frame| > limits.maxQueueBytes - records.queuedBytes {
        // Every record's place counts, so none may be left out.
        EndLink(false, false);
        return;
      }
      records := records.(queuedSlices := records.queuedSlices + 1, queuedBytes := records.queuedBytes + |frame|);
      records := records.(work := records.work + [Rec.Seal(frame)], accepted := records.accepted + [frame]);
    }

    method Arrive(body: Bytes)
      requires Valid() && hand.authed
      modifies `records
      ensures Valid() && records == Rec.Arrive(old(records), body)
    {
      hide Ends.EndOk, R.HandOk;
      Ends.EndStepOk(Env(), records, Rec.Arriving(body), hand.sendKey.value, hand.recvKey.value, early);
      if records.closed {
        return;
      }
      records := records.(work := records.work + [Rec.Decode(body)]);
    }

    method OnChannelClosed()
      requires Valid() && hand.authed
      modifies `records
      ensures Valid() && records == Rec.ChannelClosed(old(records))
    {
      hide Ends.EndOk, R.HandOk;
      Ends.EndStepOk(Env(), records, Rec.Dropped, hand.sendKey.value, hand.recvKey.value, early);
      if records.closed {
        return;
      }
      records := records.(closed := true);
      Teardown();
    }

    method Teardown()
      modifies `records
      ensures records == Rec.Teardown(old(records))
    {
      records := records.(sendKey := None, recvKey := None);
    }

    method SealFrame(frame: Bytes) returns (record: Bytes)
      requires records.sendKey.Some?
      modifies `records
      ensures records == Rec.SealFrame(Env(), old(records), frame)
      ensures records.wire == old(records).wire + [record]
    {
      hide Rec.Nonce, H.Hash;
      record := c.seal(records.sendKey.value, Rec.Nonce(records.sendEpoch, records.sendCtr), frame);
      records := records.(sealed := records.sealed + [frame], wire := records.wire + [record], sendCtr := records.sendCtr + 1);
      if records.sendCtr >= limits.rekeyAfter {
        records := records.(sendKey := Some(H.Hash(c, H.Rekey(records.sendKey.value))));
        records := records.(sendEpoch := records.sendEpoch + 1, sendCtr := 0);
      }
    }

    /** One record, sealed at its place whether or not the channel then takes it. */
    method WireRecord(frame: Bytes, wired: bool)
      modifies `records
      ensures records == Rec.WireRecord(Env(), old(records), frame, wired)
    {
      hide Rec.EndLink, Rec.SealFrame;
      if records.sendKey.None? {
        EndLink(false, false);
        return;
      }
      var record := SealFrame(frame);
      if !wired {
        EndLink(false, false);
      }
    }

    method Advance(frame: Bytes)
      requires records.recvKey.Some?
      modifies `records
      ensures records == Rec.Advance(Env(), old(records)).(got := old(records).got + [frame])
    {
      hide H.Hash;
      records := records.(recvCtr := records.recvCtr + 1, got := records.got + [frame]);
      if records.recvCtr >= limits.rekeyAfter {
        records := records.(recvKey := Some(H.Hash(c, H.Rekey(records.recvKey.value))));
        records := records.(recvEpoch := records.recvEpoch + 1, recvCtr := 0);
      }
    }

    /** An authenticated record, opened at the place this end has come to. */
    method OnRecord(body: Bytes)
      modifies `records
      ensures records == Rec.OnRecord(Env(), old(records), body)
    {
      hide Rec.EndLink, Rec.Nonce, H.Hash, Rec.Advance;
      if records.recvKey.None? || |body| < Rec.TAG_LEN || |body| > limits.maxFrame {
        EndLink(false, true);
        return;
      }
      if records.recvEpoch >= Rec.REJECT_AFTER_EPOCHS {
        EndLink(false, false);
        return;
      }
      var r := c.open(records.recvKey.value, Rec.Nonce(records.recvEpoch, records.recvCtr), body);
      if r.None? {
        EndLink(false, true);
        return;
      }
      // Advance only on success.
      Advance(r.value);
      // No frame is empty, so this can only be the peer's goodbye.
      if r.value == [] {
        records := records.(peerSaidGoodbye := true);
        EndLink(true, false);
        return;
      }
      records := records.(delivered := records.delivered + [r.value]);
    }

    /** The work chain's next step. */
    method Work(wired: bool)
      requires Valid() && hand.authed
      modifies `records
      ensures Valid() && records == Rec.Work(Env(), old(records), wired)
    {
      hide Rec.EndLink, Rec.WireRecord, Rec.OnRecord, Rec.SealFrame, Ends.EndOk, R.HandOk;
      Ends.EndStepOk(Env(), records, Rec.Working(wired), hand.sendKey.value, hand.recvKey.value, early);
      if records.work == [] {
        return;
      }
      var task := records.work[0];
      records := records.(work := records.work[1..]);
      match task
      case Early(frame) => WireRecord(frame, wired);
      case Seal(frame) =>
        if !(records.closed && !records.parting) {
          WireRecord(frame, wired);
        }
        records := records.(queuedSlices := records.queuedSlices - 1, queuedBytes := records.queuedBytes - |frame|);
      case Decode(body) =>
        if !records.closed {
          OnRecord(body);
        }
      case Finish =>
        // The records sealed since the close may have moved the epoch past its limit.
        if records.parting && records.sendKey.Some? && records.sendEpoch < Rec.REJECT_AFTER_EPOCHS {
          var goodbye := SealFrame([]);
        }
        Teardown();
    }
  }

  /** Two links that have just shaken hands begin in lockstep: what RecordRuns proves of every
      run holds of what they go on to send, each way under the other's key. */
  lemma HandshakeBeginsLink(c: H.Crypto, limits: Rec.Limits, i: R.Node, r: R.Node, root: Bytes, secret: Bytes,
                            fromI: seq<Bytes>, fromR: seq<Bytes>)
    requires H.Lawful(c) && H.Widths(c) && R.Willing(c, i, r)
    requires var w1 := R.SendMsg1(c, i, R.Opening(root, Some(secret))).out.value; R.Discerns(c, r, root, secret, w1)
    requires (forall k :: 0 <= k < |fromI| ==> fromI[k] != []) && (forall k :: 0 <= k < |fromR| ==> fromR[k] != [])
    ensures var m1 := R.SendMsg1(c, i, R.Opening(root, Some(secret)));
            var m2 := R.OnMsg1(c, r, R.Opening(root, None), m1.out.value);
            && m2.out.Some?
            && var m3 := R.OnMsg2(c, i, m1.hand, m2.out.value);
               && m3.out.Some? && m3.hand.sendKey.Some? && m3.hand.recvKey.Some?
               && var m4 := R.OnMsg3(c, r, m2.hand, m3.out.value);
                  && m4.hand.sendKey.Some? && m4.hand.recvKey.Some?
                  && var pair := Runs.Pair(Rec.Authenticated(m3.hand.sendKey.value, m3.hand.recvKey.value, fromI),
                                           Rec.Authenticated(m4.hand.sendKey.value, m4.hand.recvKey.value, fromR));
                     Runs.Run(Rec.Env(SuiteOf(c), limits), [pair], [], m3.hand.sendKey.value, m3.hand.recvKey.value)
    ensures Rec.Lawful(SuiteOf(c))
  {
    hide R.SendMsg1, R.OnMsg1, R.OnMsg2, R.OnMsg3, R.Willing, R.Discerns, H.Widths;
    R.HandshakeAgrees(c, i, r, root, secret);
  }
}
