/** Every run of the loader (WASM/host/slots.ts): any calls in any order, any read or write
    failing, and a crash after any file operation, followed by another start. */
module LoaderRuns {
  import opened Base
  import opened LoaderSpec

  datatype Call =
    | Idle
    | Choosing(io: Io)
    | Failing(io: Io)
    | Ending(serving: bool, now: real)
    | Firing(timer: nat, io: Io, now: real)
    | Staging(env: Blob, io: Io)

  /** The process dies once it has made `after` of the call's file operations, and is started
      again as `cfg` says. */
  datatype Crash = Crash(after: nat, cfg: Config)
  datatype Event = Event(call: Call, crash: Option<Crash>)
  datatype Node = Node(cfg: Config, mem: Memory, disk: Disk)

  function Do(s: Node, call: Call): Done {
    match call
    case Idle => Done(s.mem, [])
    case Choosing(io) => Choose(s.cfg, s.mem, s.disk, io).done
    case Failing(io) => Failed(s.cfg, s.mem, s.disk, io)
    case Ending(serving, now) => Ended(s.cfg, s.mem, s.disk, serving, now)
    case Firing(i, io, now) =>
      if i >= |s.mem.timers| then Done(s.mem, [])
      else Commit(s.cfg, s.mem.(timers := s.mem.timers[..i] + s.mem.timers[i + 1..]), s.disk, s.mem.timers[i].gen, io)
    case Staging(env, io) => Stage(s.cfg, s.mem, s.disk, env, io)
  }

  function After(s: Node, call: Call, ops: nat): Disk {
    var disks := [s.disk] + Do(s, call).disks;
    disks[Min(ops, |disks| - 1)]
  }

  function Step(s: Node, e: Event): Node {
    match e.crash
    case None => Node(s.cfg, Do(s, e.call).mem, After(s, e.call, |Do(s, e.call).disks|))
    case Some(c) => Node(c.cfg, NewMemory(), After(s, e.call, c.after))
  }

  /** A timer fires when due or later, and a loader started later is no older, though it may
      implement another ABI. */
  ghost predicate Possible(s: Node, e: Event) {
    && (e.call.Firing? && e.call.timer < |s.mem.timers| ==> e.call.now >= s.mem.timers[e.call.timer].due)
    && (e.crash.Some? ==> e.crash.value.cfg.genesis.version >= s.cfg.genesis.version)
  }

  ghost predicate Run(ss: seq<Node>, es: seq<Event>) {
    && |ss| == |es| + 1 && ss[0].mem == NewMemory()
    && forall i :: 0 <= i < |es| ==> Possible(ss[i], es[i]) && ss[i + 1] == Step(ss[i], es[i])
  }

  // ── the floor ──────────────────────────────────────────────────────────────────────

  function FloorOf(s: Node): Option<Slot> { Floor(s.cfg, s.disk, true) }

  /** A host on trial reads as itself, and stands above the floor. */
  ghost predicate TrialOk(s: Node) {
    && (s.mem.trial.Some? ==>
          var t := s.mem.trial.value;
          && t.env.manifest == Some(Manifest(s.cfg.abi, t.version))
          && FloorOf(s).Some? && t.version > FloorOf(s).value.version)
    && (s.cfg.fixed.Some? ==> s.mem.trial.None? && s.mem.timers == [])
  }

  ghost predicate Rises(s: Node, u: Node) {
    FloorOf(s).Some? ==> FloorOf(u).Some? && FloorOf(s).value.version <= FloorOf(u).value.version
  }

  /** Only a firing timer changes the committed file, and then to the host on trial. */
  lemma OnlyCommitWrites(s: Node, e: Event)
    ensures var u := Step(s, e);
            u.disk.committed == s.disk.committed
            || (e.call.Firing? && Do(s, e.call).disks != [] && s.mem.trial.Some?
                && u.disk.committed == Some(s.mem.trial.value.env))
  {
    hide Do;
    if e.call.Firing? { CommitWrites(s, e.call); } else { OthersSpare(s, e.call); }
  }

  lemma OthersSpare(s: Node, call: Call)
    requires !call.Firing?
    ensures forall d :: d in Do(s, call).disks ==> d.committed == s.disk.committed
  {
  }

  lemma CommitWrites(s: Node, call: Call)
    requires call.Firing?
    ensures forall d :: d in Do(s, call).disks ==> s.mem.trial.Some? && d.committed == Some(s.mem.trial.value.env)
  {
  }

  lemma TrialOkStep(s: Node, e: Event)
    requires TrialOk(s)
    ensures TrialOk(Step(s, e))
  {
    hide Choose;
    match e.call
    case Choosing(io) => ChooseTrialOk(s, io);
    case _ => OnlyCommitWrites(s, e);
  }

  /** A boot leaves the floor as it was, and tries only what is above it. */
  lemma ChooseTrialOk(s: Node, io: Io)
    requires TrialOk(s)
    ensures TrialOk(Step(s, Event(Choosing(io), None)))
  {
  }

  /** No file operation of any call lowers the floor, as this loader reads it. */
  lemma OpsKeepFloor(s: Node, call: Call, ops: nat)
    requires TrialOk(s)
    ensures Rises(s, s.(disk := After(s, call, ops)))
  {
    OnlyCommitWrites(s, Event(call, Some(Crash(ops, s.cfg))));
  }

  /** What a loader started next must find: if there is a committed host to its predecessor, one
      it reads too, or none newer than its own genesis. */
  predicate Heir(cfg: Config, next: Config, disk: Disk) {
    Load(cfg, disk.committed, true).Some? ==>
      next.abi == cfg.abi || Load(cfg, disk.committed, true).value.version <= next.genesis.version
  }

  /** And that is exactly when starting it does not lower the floor. */
  lemma RestartKeepsFloorIff(s: Node, next: Config)
    requires FloorOf(s).Some? && next.genesis.version >= s.cfg.genesis.version
    ensures Rises(s, s.(cfg := next)) <==> Heir(s.cfg, next, s.disk)
  {
  }

  /** A restart as the event has it: on whatever files the crash left. */
  predicate HeirAt(s: Node, e: Event) {
    e.crash.Some? ==> Heir(s.cfg, e.crash.value.cfg, After(s, e.call, e.crash.value.after))
  }

  lemma FloorStep(s: Node, e: Event)
    requires TrialOk(s) && Possible(s, e) && HeirAt(s, e)
    ensures Rises(s, Step(s, e))
  {
    hide After, Heir, Floor, TrialOk;
    var ops := if e.crash.Some? then e.crash.value.after else |Do(s, e.call).disks|;
    OpsKeepFloor(s, e.call, ops);
    if e.crash.Some? && FloorOf(s).Some? {
      RestartKeepsFloorIff(s.(disk := After(s, e.call, ops)), e.crash.value.cfg);
    }
  }

  lemma {:induction false} TrialOkAlways(ss: seq<Node>, es: seq<Event>, n: nat)
    requires Run(ss, es) && n < |ss|
    ensures TrialOk(ss[n])
  {
    if n > 0 {
      TrialOkAlways(ss, es, n - 1);
      TrialOkStep(ss[n - 1], es[n - 1]);
    }
  }

  /** Over any run, crashes and all, the floor never falls while each loader started is an heir. */
  lemma {:induction false} FloorNeverFalls(ss: seq<Node>, es: seq<Event>, i: nat, j: nat)
    requires Run(ss, es) && i <= j < |ss| && forall m :: i <= m < j ==> HeirAt(ss[m], es[m])
    ensures Rises(ss[i], ss[j])
  {
    if i < j {
      FloorNeverFalls(ss, es, i, j - 1);
      TrialOkAlways(ss, es, j - 1);
      FloorStep(ss[j - 1], es[j - 1]);
    }
  }

  /** Without that it may: a loader for a new ABI does not read the committed host, and its own
      genesis may be older than that was. */
  lemma NewAbiLowersFloor() returns (ss: seq<Node>, es: seq<Event>)
    ensures Run(ss, es) && |es| == 1 && es[0].call.Idle? && !HeirAt(ss[0], es[0])
    ensures FloorOf(ss[0]).Some? && FloorOf(ss[0]).value.version == 10
    ensures FloorOf(ss[1]).Some? && FloorOf(ss[1]).value.version == 6
  {
    var old10 := Blob(1, Some(Manifest(1, 10)));
    var one := Config(1, Slot(Blob(0, Some(Manifest(1, 5))), 5), None, Off, 30000.0);
    var two := Config(2, Slot(Blob(2, Some(Manifest(2, 6))), 6), None, Off, 30000.0);
    es := [Event(Idle, Some(Crash(0, two)))];
    var s0 := Node(one, NewMemory(), Disk(Some(old10), None, false));
    ss := [s0, Step(s0, es[0])];
  }

  /** Without `--host`, a boot runs the floor's host, or the pending one just when that is
      strictly above it, was not tried, and could be marked. */
  lemma BootsFloorOrAbove(s: Node, io: Io)
    requires s.cfg.fixed.None? && io.committed
    ensures var c := Choose(s.cfg, s.mem, s.disk, io);
            var p := Load(s.cfg, s.disk.pending, io.pending);
            && (c.boot.None? <==> FloorOf(s).None?)
            && (c.done.mem.trial.Some? <==>
                  FloorOf(s).Some? && p.Some? && p.value.version > FloorOf(s).value.version && !s.disk.tried && io.write)
            && (c.done.mem.trial.Some? ==> c.done.mem.trial == p && c.boot == s.disk.pending && c.done.disks == [s.disk.(tried := true)])
            && (c.done.mem.trial.None? && c.boot.Some? ==> c.boot.value == FloorOf(s).value.env)
  {
  }

  // ── tried once ─────────────────────────────────────────────────────────────────────

  /** Event `i` booted the pending blob `b`. */
  ghost predicate Boots(ss: seq<Node>, es: seq<Event>, i: nat, b: Blob)
    requires |ss| == |es| + 1 && i < |es|
  {
    && es[i].call.Choosing? && es[i].crash.None? && ss[i].cfg.fixed.None?
    && ss[i + 1].mem.trial.Some? && ss[i + 1].mem.trial.value.env == b
  }

  /** The call got past its first file operation. */
  predicate Wrote(e: Event) { e.crash.None? || e.crash.value.after > 0 }

  /** Event `k` staged `b` anew, or was the end, without serving, of `b`'s own flow. */
  ghost predicate Renews(ss: seq<Node>, es: seq<Event>, k: nat, b: Blob)
    requires |ss| == |es| + 1 && k < |es|
  {
    Wrote(es[k]) && (
    || (es[k].call.Staging? && es[k].call.env == b && Stages(ss[k].cfg, b, es[k].call.io))
    || (es[k].call.Ending? && !es[k].call.serving && ss[k].mem.trial.Some? && ss[k].mem.trial.value.env == b))
  }

  /** Every boot of `b` before `n` was followed by its renewal. */
  ghost predicate Renewed(ss: seq<Node>, es: seq<Event>, n: nat, b: Blob)
    requires |ss| == |es| + 1 && n < |ss|
  {
    forall i: nat :: i < n && Boots(ss, es, i, b) ==> exists k: nat :: i < k < n && Renews(ss, es, k, b)
  }

  ghost predicate Untried(s: Node, b: Blob) { s.disk.pending == Some(b) && !s.disk.tried }

  /** A pending blob other than the one on trial is a successor, which carries no mark. */
  ghost predicate SuccessorFresh(s: Node) {
    s.mem.trial.Some? && s.disk.pending.Some? && s.disk.pending.value != s.mem.trial.value.env ==> !s.disk.tried
  }

  lemma SuccessorFreshStep(s: Node, e: Event)
    requires SuccessorFresh(s)
    ensures SuccessorFresh(Step(s, e))
  {
  }

  /** A pending blob becomes untried only by being staged, or by its own flow's end. */
  lemma UntriedBy(s: Node, e: Event, b: Blob)
    requires SuccessorFresh(s) && Untried(Step(s, e), b) && !Untried(s, b)
    ensures Wrote(e)
    ensures (e.call.Staging? && e.call.env == b && Stages(s.cfg, b, e.call.io))
            || (e.call.Ending? && !e.call.serving && s.mem.trial.Some? && s.mem.trial.value.env == b)
  {
  }

  lemma BootTries(s: Node, io: Io, b: Blob)
    requires s.cfg.fixed.None?
    requires var m := Choose(s.cfg, s.mem, s.disk, io).done.mem; m.trial.Some? && m.trial.value.env == b
    ensures Untried(s, b) && Step(s, Event(Choosing(io), None)).disk.tried
  {
  }

  lemma RenewedMore(ss: seq<Node>, es: seq<Event>, n: nat, b: Blob)
    requires |ss| == |es| + 1 && 0 < n < |ss|
    requires Renewed(ss, es, n - 1, b) && !Boots(ss, es, n - 1, b)
    ensures Renewed(ss, es, n, b)
  {
    forall i: nat | i < n && Boots(ss, es, i, b) ensures exists k: nat :: i < k < n && Renews(ss, es, k, b) {
      var k: nat :| i < k < n - 1 && Renews(ss, es, k, b);
    }
  }

  lemma RenewedNow(ss: seq<Node>, es: seq<Event>, n: nat, b: Blob)
    requires |ss| == |es| + 1 && 0 < n < |ss|
    requires Renews(ss, es, n - 1, b) && !Boots(ss, es, n - 1, b)
    ensures Renewed(ss, es, n, b)
  {
    forall i: nat | i < n && Boots(ss, es, i, b) ensures exists k: nat :: i < k < n && Renews(ss, es, k, b) {
      assert i < n - 1 < n && Renews(ss, es, n - 1, b);
    }
  }

  lemma {:induction false} UntriedIsRenewed(ss: seq<Node>, es: seq<Event>, n: nat, b: Blob)
    requires Run(ss, es) && n < |ss|
    ensures SuccessorFresh(ss[n]) && (Untried(ss[n], b) ==> Renewed(ss, es, n, b))
  {
    hide Step;
    if n > 0 {
      UntriedIsRenewed(ss, es, n - 1, b);
      SuccessorFreshStep(ss[n - 1], es[n - 1]);
      if Untried(ss[n], b) {
        NoBootLeavesUntried(ss, es, n - 1, b);
        if Untried(ss[n - 1], b) {
          RenewedMore(ss, es, n, b);
        } else {
          UntriedBy(ss[n - 1], es[n - 1], b);
          RenewedNow(ss, es, n, b);
        }
      }
    }
  }

  lemma NoBootLeavesUntried(ss: seq<Node>, es: seq<Event>, i: nat, b: Blob)
    requires Run(ss, es) && i < |es| && Untried(ss[i + 1], b)
    ensures !Boots(ss, es, i, b)
  {
    if Boots(ss, es, i, b) { BootTries(ss[i], es[i].call.io, b); }
  }

  /** A staged host that was booted is not booted again, whatever crashed or failed since,
      unless it was staged anew or its flow ended without serving. */
  lemma NeverRetried(ss: seq<Node>, es: seq<Event>, i: nat, j: nat, b: Blob)
    requires Run(ss, es) && i < j < |es| && Boots(ss, es, i, b) && Boots(ss, es, j, b)
    ensures exists k: nat :: i < k < j && Renews(ss, es, k, b)
  {
    BootTries(ss[j], es[j].call.io, b);
    UntriedIsRenewed(ss, es, j, b);
  }

  // ── the health window ──────────────────────────────────────────────────────────────

  /** Nothing in between failed, crashed or booted. */
  ghost predicate Undisturbed(es: seq<Event>, i: int, j: int)
    requires -1 <= i < |es| && j <= |es|
  {
    forall m :: i < m < j ==> es[m].crash.None? && !es[m].call.Choosing? && !es[m].call.Failing?
  }

  ghost predicate Rebooted(es: seq<Event>, i: int, j: int)
    requires -1 <= i < |es| && j <= |es|
  {
    exists m :: i < m < j && (es[m].crash.Some? || es[m].call.Choosing?)
  }

  /** The host on trial was booted, and nothing has happened to it since. */
  ghost predicate TrialSince(ss: seq<Node>, es: seq<Event>, n: nat, j: nat)
    requires |ss| == |es| + 1 && n < |ss|
  {
    j < n && ss[n].mem.trial.Some? && Boots(ss, es, j, ss[n].mem.trial.value.env) && Undisturbed(es, j, n)
  }

  lemma {:induction false} TrialWasBooted(ss: seq<Node>, es: seq<Event>, n: nat) returns (j: nat)
    requires Run(ss, es) && n < |ss| && ss[n].mem.trial.Some?
    ensures TrialSince(ss, es, n, j)
  {
    hide Step;
    TrialOkAlways(ss, es, n - 1);
    TrialStep(ss[n - 1], es[n - 1]);
    if es[n - 1].call.Choosing? {
      j := n - 1;
    } else {
      j := TrialWasBooted(ss, es, n - 1);
    }
  }

  /** A host is on trial because it was just booted, or was already and nothing ended that. */
  lemma TrialStep(s: Node, e: Event)
    requires TrialOk(s) && Step(s, e).mem.trial.Some?
    ensures e.crash.None? && !e.call.Failing?
    ensures if e.call.Choosing? then s.cfg.fixed.None? else s.mem.trial == Step(s, e).mem.trial
  {
  }

  /** A running timer of this boot was set by its flow ending in service, a window before it
      is due. */
  ghost predicate SetBy(ss: seq<Node>, es: seq<Event>, n: nat, tm: Timer, k: nat)
    requires |ss| == |es| + 1 && n < |ss|
  {
    && k < n && es[k].call.Ending? && es[k].call.serving && es[k].crash.None?
    && ss[k].mem.trial.Some? && !ss[k].mem.bootAfterFlow
    && tm.due == es[k].call.now + ss[n].cfg.window
    && !Rebooted(es, k, n)
  }

  lemma TimersStep(s: Node, e: Event, tm: Timer)
    requires TrialOk(s) && tm in Step(s, e).mem.timers && tm.gen >= Step(s, e).mem.gen
    requires forall x :: x in s.mem.timers ==> x.gen <= s.mem.gen
    ensures e.crash.None? && !e.call.Choosing? && Step(s, e).cfg == s.cfg
    ensures (tm in s.mem.timers && tm.gen >= s.mem.gen)
            || (e.call.Ending? && e.call.serving && s.mem.trial.Some? && !s.mem.bootAfterFlow && tm.due == e.call.now + s.cfg.window)
  {
  }

  lemma {:induction false} TimersOld(ss: seq<Node>, es: seq<Event>, n: nat)
    requires Run(ss, es) && n < |ss|
    ensures forall x :: x in ss[n].mem.timers ==> x.gen <= ss[n].mem.gen
  {
    hide Step, Possible;
    if n > 0 {
      TimersOld(ss, es, n - 1);
      TimersOldStep(ss[n - 1], es[n - 1]);
    }
  }

  lemma TimersOldStep(s: Node, e: Event)
    requires forall x :: x in s.mem.timers ==> x.gen <= s.mem.gen
    ensures forall x :: x in Step(s, e).mem.timers ==> x.gen <= Step(s, e).mem.gen
  {
    if e.call.Firing? && e.call.timer < |s.mem.timers| {
      var i := e.call.timer;
      assert forall x :: x in s.mem.timers[..i] + s.mem.timers[i + 1..] ==> x in s.mem.timers;
    }
  }

  lemma {:induction false} TimerWasSet(ss: seq<Node>, es: seq<Event>, n: nat, tm: Timer) returns (k: nat)
    requires Run(ss, es) && n < |ss| && tm in ss[n].mem.timers && tm.gen >= ss[n].mem.gen
    ensures SetBy(ss, es, n, tm, k)
  {
    hide Step, Possible;
    TrialOkAlways(ss, es, n - 1);
    TimersOld(ss, es, n - 1);
    TimersStep(ss[n - 1], es[n - 1], tm);
    if tm in ss[n - 1].mem.timers && tm.gen >= ss[n - 1].mem.gen {
      k := TimerWasSet(ss, es, n - 1, tm);
    } else {
      k := n - 1;
    }
  }

  /** A blob is committed only by a boot of that blob, whose flow ended in service at least a
      window before, with no failure, crash or reboot from that boot on. */
  lemma CommitNeedsWindow(ss: seq<Node>, es: seq<Event>, i: nat) returns (j: nat, k: nat)
    requires Run(ss, es) && i < |es| && ss[i + 1].disk.committed != ss[i].disk.committed
    ensures j < k < i && es[i].call.Firing?
    ensures ss[i].mem.trial.Some? && ss[i + 1].disk.committed == Some(ss[i].mem.trial.value.env)
    ensures Boots(ss, es, j, ss[i].mem.trial.value.env) && Undisturbed(es, j, i)
    ensures es[k].call.Ending? && es[k].call.serving && es[k].call.now + ss[i].cfg.window <= es[i].call.now
  {
    var s := ss[i];
    OnlyCommitWrites(s, es[i]);
    j := TrialWasBooted(ss, es, i);
    k := TimerWasSet(ss, es, i, s.mem.timers[es[i].call.timer]);
  }

  // ── successors ─────────────────────────────────────────────────────────────────────

  /** A staged blob is newer than the host that staged it. */
  ghost predicate StagesNewer(s: Node, e: Event) {
    (e.call.Staging? && s.mem.trial.Some? && e.call.env.manifest.Some?) ==>
      e.call.env.manifest.value.version > s.mem.trial.value.version
  }

  ghost predicate SuccessorNewer(s: Node) {
    var p := Load(s.cfg, s.disk.pending, true);
    s.mem.trial.Some? && p.Some? && p.value.env != s.mem.trial.value.env ==> p.value.version > s.mem.trial.value.version
  }

  lemma SuccessorNewerStep(s: Node, e: Event)
    requires SuccessorNewer(s) && StagesNewer(s, e)
    ensures SuccessorNewer(Step(s, e))
  {
  }

  lemma {:induction false} SuccessorNewerAlways(ss: seq<Node>, es: seq<Event>, n: nat)
    requires Run(ss, es) && n < |ss| && forall i :: 0 <= i < |es| ==> StagesNewer(ss[i], es[i])
    ensures SuccessorNewer(ss[n])
  {
    if n > 0 {
      SuccessorNewerAlways(ss, es, n - 1);
      SuccessorNewerStep(ss[n - 1], es[n - 1]);
    }
  }

  /** Neither a failed trial nor a commit, crashed part way or not, removes a successor staged
      during the trial. */
  lemma SuccessorKept(ss: seq<Node>, es: seq<Event>, i: nat)
    requires Run(ss, es) && i < |es| && forall m :: 0 <= m < |es| ==> StagesNewer(ss[m], es[m])
    requires es[i].call.Failing? || es[i].call.Firing?
    requires ss[i].mem.trial.Some? && ss[i].disk.pending.Some? && ss[i].disk.pending.value != ss[i].mem.trial.value.env
    ensures ss[i + 1].disk.pending == ss[i].disk.pending
  {
    SuccessorNewerAlways(ss, es, i);
  }

  /** What a failed trial drops is exactly what reads as its own version. */
  lemma FailedDropsItsOwn(s: Node, io: Io)
    requires s.mem.trial.Some?
    ensures var u := Step(s, Event(Failing(io), None));
            var p := Load(s.cfg, s.disk.pending, io.pending);
            && u.mem.trial.None?
            && (p.Some? && p.value.version == s.mem.trial.value.version ==> u.disk == s.disk.(pending := None, tried := false))
            && (p.None? || p.value.version != s.mem.trial.value.version ==> u.disk == s.disk)
  {
  }

  // ── a trial that serves ────────────────────────────────────────────────────────────

  /** What becomes of a trial that serves and never fails: either its window's timer fires, or
      the loader boots again at once. */
  function Served(s: Node, now: real, io: Io): Node {
    var e := Step(s, Event(Ending(true, now), None));
    if s.mem.bootAfterFlow then Step(e, Event(Choosing(io), None))
    else Step(e, Event(Firing(|s.mem.timers|, io, now + s.cfg.window), None))
  }

  /** A trial that serves through its window is committed just when no staging under "now" was
      left over from before: `bootAfterFlow` is cleared only by the end of a flow. */
  lemma ServedIsCommittedIff(s: Node, now: real, io: Io)
    requires TrialOk(s) && s.mem.trial.Some? && s.disk.pending == Some(s.mem.trial.value.env) && s.disk.tried
    requires io == Io(true, true, true)
    ensures var u := Served(s, now, io);
            && (u.disk.committed == Some(s.mem.trial.value.env) <==> !s.mem.bootAfterFlow)
            && u.disk.pending.None? && !u.disk.tried
            && (s.mem.bootAfterFlow ==> u.disk.committed == s.disk.committed && FloorOf(u) == FloorOf(s))
  {
  }

  /** Event `k` staged under "now" before its boot's flow had ended in service, and since then no
      flow has ended and the process has not died. */
  ghost predicate LeftOver(ss: seq<Node>, es: seq<Event>, k: nat, n: nat)
    requires |ss| == |es| + 1 && n < |ss|
  {
    && k < n && es[k].call.Staging? && Stages(ss[k].cfg, es[k].call.env, es[k].call.io)
    && ss[k].cfg.mode == AtOnce && !ss[k].mem.serving
    && forall m :: k <= m < n ==> es[m].crash.None? && !es[m].call.Ending?
  }

  lemma FlagStep(s: Node, e: Event)
    ensures var u := Step(s, e);
            var staged := e.call.Staging? && Stages(s.cfg, e.call.env, e.call.io) && s.cfg.mode == AtOnce && !s.mem.serving;
            u.mem.bootAfterFlow <==> e.crash.None? && !e.call.Ending? && (s.mem.bootAfterFlow || staged)
  {
  }

  /** The flag is up just while such a staging is left over, through failures and boots alike:
      neither a failed trial nor the boot after it takes it down. */
  lemma {:induction false} FlagIffLeftOver(ss: seq<Node>, es: seq<Event>, n: nat)
    requires Run(ss, es) && n < |ss|
    ensures ss[n].mem.bootAfterFlow <==> exists k: nat :: LeftOver(ss, es, k, n)
  {
    hide Step, Possible, Stages;
    if n > 0 {
      FlagIffLeftOver(ss, es, n - 1);
      FlagStep(ss[n - 1], es[n - 1]);
      if ss[n].mem.bootAfterFlow {
        if ss[n - 1].mem.bootAfterFlow {
          var k: nat :| LeftOver(ss, es, k, n - 1);
          assert LeftOver(ss, es, k, n);
        } else {
          assert LeftOver(ss, es, n - 1, n);
        }
      }
      forall k: nat | LeftOver(ss, es, k, n) ensures ss[n].mem.bootAfterFlow {
        if k < n - 1 { assert LeftOver(ss, es, k, n - 1); }
      }
    }
  }

  /** So, over every run: a trial that serves through its window is committed just when no
      staging under "now" is left over from before. */
  lemma ServedIsCommittedUnlessLeftOver(ss: seq<Node>, es: seq<Event>, n: nat, now: real, io: Io)
    requires Run(ss, es) && n < |ss| && io == Io(true, true, true)
    requires var s := ss[n]; s.mem.trial.Some? && s.disk.pending == Some(s.mem.trial.value.env) && s.disk.tried
    ensures Served(ss[n], now, io).disk.committed == Some(ss[n].mem.trial.value.env) <==> !exists k: nat :: LeftOver(ss, es, k, n)
  {
    hide Served, LeftOver;
    TrialOkAlways(ss, es, n);
    FlagIffLeftOver(ss, es, n);
    ServedIsCommittedIff(ss[n], now, io);
  }

  /** Such a left-over staging: a trial stages its successor under "now" and then fails. The
      successor is booted, serves, and is dropped at once, never having failed. */
  lemma HealthySuccessorDropped() returns (ss: seq<Node>, es: seq<Event>, b: Blob)
    ensures Run(ss, es) && |es| == 6 && es[3].call.Choosing? && es[4] == Event(Ending(true, 3.0), None)
    ensures Boots(ss, es, 3, b) && ss[5].mem.trial.Some? && ss[5].mem.trial.value.env == b
    ensures ss[6].disk == Disk(None, None, false)
    ensures forall i :: 0 <= i < |es| ==> StagesNewer(ss[i], es[i])
  {
    var fine := Io(true, true, true);
    var a := Blob(1, Some(Manifest(1, 2)));
    b := Blob(2, Some(Manifest(1, 3)));
    var cfg := Config(1, Slot(Blob(0, Some(Manifest(1, 1))), 1), None, AtOnce, 30000.0);
    es := [Event(Choosing(fine), None), Event(Staging(b, fine), None), Event(Failing(fine), None),
           Event(Choosing(fine), None), Event(Ending(true, 3.0), None), Event(Choosing(fine), None)];
    var onA, onB := Slot(a, 2), Slot(b, 3);
    var s0 := Node(cfg, NewMemory(), Disk(None, Some(a), false));
    var s1 := Node(cfg, Memory(Some(onA), false, false, 1, []), Disk(None, Some(a), true));
    assert Step(s0, es[0]) == s1;
    var s2 := Node(cfg, Memory(Some(onA), false, true, 1, []), Disk(None, Some(b), false));
    assert Step(s1, es[1]) == s2;
    var s3 := Node(cfg, Memory(None, false, true, 1, []), Disk(None, Some(b), false));
    assert Step(s2, es[2]) == s3;
    var s4 := Node(cfg, Memory(Some(onB), false, true, 2, []), Disk(None, Some(b), true));
    assert Step(s3, es[3]) == s4;
    var s5 := Node(cfg, Memory(Some(onB), false, false, 2, []), Disk(None, Some(b), true));
    assert Step(s4, es[4]) == s5;
    ss := [s0, s1, s2, s3, s4, s5, Step(s5, es[5])];
  }

  // ── what a staging and a boot come to ────────────────────────────────────────────────

  /** A file system that answers. */
  predicate Sound(io: Io) { io.committed && io.pending && io.write }

  /** `b` reads as a host for this loader, above what it would otherwise boot. */
  ghost predicate Newer(s: Node, b: Blob) {
    && b.manifest.Some? && b.manifest.value.abi == s.cfg.abi
    && FloorOf(s).Some? && b.manifest.value.version > FloorOf(s).value.version
  }

  /** A blob handed over is pending and untried just where updates are on, it reads, and it can be
      written; else nothing changes. Under "now", outside service, the loader then means to boot again. */
  lemma StagedPends(ss: seq<Node>, es: seq<Event>, n: nat)
    requires Run(ss, es) && n < |es| && es[n].call.Staging? && es[n].crash.None?
    ensures var s, t, env := ss[n], ss[n + 1], es[n].call.env;
            var taken := s.cfg.mode != Off && env.manifest.Some? && es[n].call.io.write;
            && t.disk == (if taken then Disk(s.disk.committed, Some(env), false) else s.disk)
            && t.mem == s.mem.(bootAfterFlow := s.mem.bootAfterFlow || (taken && s.cfg.mode == AtOnce && !s.mem.serving))
            && t.cfg == s.cfg
  {
  }

  /** And the next boot of such a blob, newer than the rest, is of it. */
  lemma StagedBootsNext(ss: seq<Node>, es: seq<Event>, n: nat)
    requires Run(ss, es) && n + 1 < |es| && es[n].call.Staging? && es[n].crash.None?
    requires ss[n].cfg.mode != Off && es[n].call.io.write && Newer(ss[n], es[n].call.env)
    requires ss[n].cfg.fixed.None? && es[n + 1].call.Choosing? && es[n + 1].crash.None? && Sound(es[n + 1].call.io)
    ensures var c := Choose(ss[n + 1].cfg, ss[n + 1].mem, ss[n + 1].disk, es[n + 1].call.io);
            && c.boot == Some(es[n].call.env)
            && ss[n + 2].mem.trial == Some(Slot(es[n].call.env, es[n].call.env.manifest.value.version)) && ss[n + 2].disk.tried
  {
    StagedPends(ss, es, n);
  }

  /** A trial whose flow ends without serving is left for another boot, which is of it again. */
  lemma UnservedBootsAgain(ss: seq<Node>, es: seq<Event>, n: nat)
    requires Run(ss, es) && n + 1 < |es| && ss[n].mem.trial.Some? && ss[n].disk.pending == Some(ss[n].mem.trial.value.env)
    requires es[n].call.Ending? && !es[n].call.serving && es[n].crash.None?
    requires es[n + 1].call.Choosing? && es[n + 1].crash.None? && Sound(es[n + 1].call.io)
    ensures ss[n + 1].mem.trial.None? && !ss[n + 1].disk.tried && ss[n + 1].disk.pending == ss[n].disk.pending
    ensures ss[n + 2].mem.trial == ss[n].mem.trial && ss[n + 2].disk.tried
    ensures Choose(ss[n + 1].cfg, ss[n + 1].mem, ss[n + 1].disk, es[n + 1].call.io).boot == ss[n].disk.pending
  {
    TrialOkAlways(ss, es, n);
  }

  /** A boot of a host named on the command line leaves the files, and what is on trial, alone. */
  lemma FixedBootsAlone(ss: seq<Node>, es: seq<Event>, n: nat)
    requires Run(ss, es) && n < |es| && es[n].call.Choosing? && es[n].crash.None? && ss[n].cfg.fixed.Some?
    ensures Choose(ss[n].cfg, ss[n].mem, ss[n].disk, es[n].call.io).boot == ss[n].cfg.fixed
    ensures ss[n + 1].disk == ss[n].disk && ss[n + 1].mem == ss[n].mem.(serving := false)
  {
  }

  /** A committed host that cannot be read, or is broken, stops the boot, and the files are left. */
  lemma BrokenStops(s: Node, io: Io)
    requires s.cfg.fixed.None?
    ensures var c := Choose(s.cfg, s.mem, s.disk, io);
            && (c.boot.None? <==> !io.committed || (s.disk.committed.Some? && s.disk.committed.value.manifest.None?))
            && (c.boot.None? ==> c.done.disks == [] && c.done.mem.trial.None?)
  {
  }
}
