/** The host loader (WASM/host/slots.ts). It picks the host of each boot, and tries a newer one
    before trusting it. Three files hold what outlives the process. Every handler
    is a function that lists the files after each of its file operations, so that a crash may
    leave any of them behind; the class `Loader` is proved to do just that, in that order. */
module LoaderSpec {
  import opened Base

  datatype Manifest = Manifest(abi: nat, version: nat)
  /** A file's bytes, and what they read as: None when they are no host blob. */
  datatype Blob = Blob(id: nat, manifest: Option<Manifest>)
  datatype Slot = Slot(env: Blob, version: nat)
  datatype Disk = Disk(committed: Option<Blob>, pending: Option<Blob>, tried: bool)

  datatype Mode = Off | AtNextStart | AtOnce
  datatype Config = Config(abi: nat, genesis: Slot, fixed: Option<Blob>, mode: Mode, window: real)

  /** A health window running for boot number `gen`. */
  datatype Timer = Timer(gen: nat, due: real)

  datatype Memory = Memory(trial: Option<Slot>, serving: bool, bootAfterFlow: bool, gen: nat, timers: seq<Timer>)

  /** What the file system answers in one call: whether each slot reads, and a write succeeds. */
  datatype Io = Io(committed: bool, pending: bool, write: bool)

  /** The memory a call leaves, and the disk after each file operation it made. */
  datatype Done = Done(mem: Memory, disks: seq<Disk>)

  function NewMemory(): Memory { Memory(None, false, false, 0, []) }

  /** A slot's blob, or None when it is absent, unreadable, or not for this loader. */
  function Load(cfg: Config, file: Option<Blob>, readable: bool): Option<Slot> {
    if readable && file.Some? && file.value.manifest.Some? && file.value.manifest.value.abi == cfg.abi
    then Some(Slot(file.value, file.value.manifest.value.version)) else None
  }

  /** The floor, or None when a committed host is there but broken, which stops the boot. */
  function Floor(cfg: Config, disk: Disk, readable: bool): Option<Slot> {
    if !readable || (disk.committed.Some? && disk.committed.value.manifest.None?) then None
    else
      var c := Load(cfg, disk.committed, readable);
      if c.Some? && c.value.version > cfg.genesis.version then c else Some(cfg.genesis)
  }

  function Drop(disk: Disk): seq<Disk> { [disk.(pending := None), disk.(pending := None, tried := false)] }

  /** The call's outcome, and the blob to boot: None when it throws. */
  datatype Choice = Choice(done: Done, boot: Option<Blob>)

  function Choose(cfg: Config, mem: Memory, disk: Disk, io: Io): Choice {
    var idle := mem.(serving := false);
    if cfg.fixed.Some? then Choice(Done(idle, []), cfg.fixed)
    else
      var next := idle.(gen := mem.gen + 1, trial := None);
      var base := Floor(cfg, disk, io.committed);
      if base.None? then Choice(Done(next, []), None)
      else if disk.pending.None? then Choice(Done(next, []), Some(base.value.env))
      else if disk.tried then Choice(Done(next, Drop(disk)), Some(base.value.env))
      else
        var p := Load(cfg, disk.pending, io.pending);
        if p.None? || p.value.version <= base.value.version
        then Choice(Done(next, Drop(disk)), Some(base.value.env))
        else if !io.write then Choice(Done(next, []), Some(base.value.env))
        else Choice(Done(next.(trial := p), [disk.(tried := true)]), Some(p.value.env))
  }

  /** Told by version alone: whether what reads as pending is `slot`. */
  predicate HoldsPending(cfg: Config, disk: Disk, slot: Slot, io: Io) {
    var p := Load(cfg, disk.pending, io.pending);
    p.Some? && p.value.version == slot.version
  }

  function Failed(cfg: Config, mem: Memory, disk: Disk, io: Io): Done {
    if mem.trial.None? then Done(mem, [])
    else Done(mem.(trial := None), if HoldsPending(cfg, disk, mem.trial.value, io) then Drop(disk) else [])
  }

  function Ended(cfg: Config, mem: Memory, disk: Disk, serving: bool, now: real): Done {
    var again := serving && mem.bootAfterFlow;
    var m := mem.(bootAfterFlow := false, serving := serving && !again);
    if mem.trial.Some? && !serving then Done(m.(trial := None), [disk.(tried := false)])
    else if mem.trial.Some? && !again then Done(m.(timers := m.timers + [Timer(m.gen, now + cfg.window)]), [])
    else Done(m, [])
  }

  function Commit(cfg: Config, mem: Memory, disk: Disk, gen: nat, io: Io): Done {
    if mem.trial.None? || mem.gen != gen || !io.write then Done(mem, [])
    else
      var raised := disk.(committed := Some(mem.trial.value.env));
      Done(mem.(trial := None),
           [raised] + if HoldsPending(cfg, raised, mem.trial.value, io) then Drop(raised) else [])
  }

  /** Whether a blob is taken as pending: updates are on, it reads, and it can be written. */
  predicate Stages(cfg: Config, env: Blob, io: Io) { cfg.mode != Off && env.manifest.Some? && io.write }

  function Stage(cfg: Config, mem: Memory, disk: Disk, env: Blob, io: Io): Done {
    if !Stages(cfg, env, io) then Done(mem, [])
    else
      Done(if cfg.mode == AtOnce && !mem.serving then mem.(bootAfterFlow := true) else mem,
           [disk.(pending := Some(env)), disk.(pending := Some(env), tried := false)])
  }
}

/** `Loader`, with the fields and file operations it has. */
module Loaders {
  import opened Base
  import opened LoaderSpec

  class Loader {
    const cfg: Config
    var trial: Option<Slot>
    var serving: bool
    var bootAfterFlow: bool
    var gen: nat
    var timers: seq<Timer>
    var disk: Disk
    /** The disk after every file operation so far. */
    ghost var trail: seq<Disk>

    ghost function Mem(): Memory
      reads this
    {
      Memory(trial, serving, bootAfterFlow, gen, timers)
    }

    ghost predicate Valid()
      reads this
    {
      |trail| > 0 && trail[|trail| - 1] == disk
    }

    /** A loader started over the files another run left. */
    constructor (cfg: Config, disk: Disk)
      ensures Valid() && Mem() == NewMemory() && this.cfg == cfg && this.disk == disk && trail == [disk]
    {
      this.cfg, this.disk := cfg, disk;
      trial, serving, bootAfterFlow, gen, timers := None, false, false, 0, [];
      trail := [disk];
    }

    method WriteCommitted(env: Blob)
      requires Valid()
      modifies `disk, `trail
      ensures Valid() && disk == old(disk).(committed := Some(env)) && trail == old(trail) + [disk]
    {
      disk := disk.(committed := Some(env));
      trail := trail + [disk];
    }

    method WritePending(env: Blob)
      requires Valid()
      modifies `disk, `trail
      ensures Valid() && disk == old(disk).(pending := Some(env)) && trail == old(trail) + [disk]
    {
      disk := disk.(pending := Some(env));
      trail := trail + [disk];
    }

    method RemovePending()
      requires Valid()
      modifies `disk, `trail
      ensures Valid() && disk == old(disk).(pending := None) && trail == old(trail) + [disk]
    {
      disk := disk.(pending := None);
      trail := trail + [disk];
    }

    method SetTried(tried: bool)
      requires Valid()
      modifies `disk, `trail
      ensures Valid() && disk == old(disk).(tried := tried) && trail == old(trail) + [disk]
    {
      disk := disk.(tried := tried);
      trail := trail + [disk];
    }

    /** The pending host first, then its mark: a crash between leaves no host unmarked. */
    method ClearPending()
      requires Valid()
      modifies `disk, `trail
      ensures Valid() && trail == old(trail) + Drop(old(disk))
    {
      RemovePending();
      SetTried(false);
    }

    method Discard()
      requires Valid()
      modifies `disk, `trail, `trial
      ensures Valid() && trail == old(trail) + Drop(old(disk)) && trial == None
    {
      ClearPending();
      trial := None;
    }

    /** None is a refusal to boot: there is a floor and it cannot be read. */
    method Choose(io: Io) returns (boot: Option<Blob>)
      requires Valid()
      modifies this
      ensures Valid()
      ensures var c := LoaderSpec.Choose(cfg, old(Mem()), old(disk), io);
              boot == c.boot && Mem() == c.done.mem && trail == old(trail) + c.done.disks
    {
      serving := false;
      if cfg.fixed.Some? {
        return cfg.fixed;
      }
      gen := gen + 1;
      trial := None;
      var base := Floor(cfg, disk, io.committed);
      if base.None? {
        return None;
      }
      if disk.pending.None? {
        return Some(base.value.env);
      }
      if disk.tried {
        Discard();
        return Some(base.value.env);
      }
      var p := Load(cfg, disk.pending, io.pending);
      if p.None? || p.value.version <= base.value.version {
        Discard();
        return Some(base.value.env);
      }
      if !io.write {
        return Some(base.value.env);
      }
      SetTried(true);
      trial := p;
      return Some(p.value.env);
    }

    /** A failure ends a trial if there is one; otherwise it is the floor's own, and not handled. */
    method Failed(io: Io) returns (mine: bool)
      requires Valid()
      modifies this
      ensures Valid()
      ensures var d := LoaderSpec.Failed(cfg, old(Mem()), old(disk), io);
              Mem() == d.mem && trail == old(trail) + d.disks
      ensures mine == old(trial).Some?
    {
      if trial.None? {
        return false;
      }
      if HoldsPending(cfg, disk, trial.value, io) {
        Discard();
      } else {
        // What is pending is not the host that failed.
        trial := None;
      }
      return true;
    }

    /** The boot's flow is over: a trial starts its window, or is left for another day. */
    method Ended(served: bool, now: real) returns (again: bool)
      requires Valid()
      modifies this
      ensures Valid()
      ensures var d := LoaderSpec.Ended(cfg, old(Mem()), old(disk), served, now);
              Mem() == d.mem && trail == old(trail) + d.disks
      ensures again <==> served && old(bootAfterFlow)
    {
      again := served && bootAfterFlow;
      bootAfterFlow := false;
      serving := served && !again;
      if trial.Some? && !served {
        SetTried(false);
        trial := None;
      } else if trial.Some? && !again {
        timers := timers + [Timer(gen, now + cfg.window)];
      }
    }

    /** The end of a window, if it is this boot's: the only step that moves the floor. */
    method Commit(g: nat, io: Io)
      requires Valid()
      modifies this
      ensures Valid()
      ensures var d := LoaderSpec.Commit(cfg, old(Mem()), old(disk), g, io);
              Mem() == d.mem && trail == old(trail) + d.disks
    {
      if trial.None? || gen != g || !io.write {
        return;
      }
      WriteCommitted(trial.value.env);
      if HoldsPending(cfg, disk, trial.value, io) {
        ClearPending();
      }
      trial := None;
    }

    /** A successor: None when it is not taken, else whether the caller boots it at once. */
    method Stage(env: Blob, io: Io) returns (now: Option<bool>)
      requires Valid()
      modifies this
      ensures Valid()
      ensures var d := LoaderSpec.Stage(cfg, old(Mem()), old(disk), env, io);
              Mem() == d.mem && trail == old(trail) + d.disks
      ensures now.Some? <==> Stages(cfg, env, io)
      ensures now.Some? ==> (now.value <==> cfg.mode == AtOnce && old(serving))
    {
      if cfg.mode == Off || env.manifest.None? || !io.write {
        return None;
      }
      WritePending(env);
      SetTried(false);
      if cfg.mode != AtOnce {
        return Some(false);
      }
      if !serving {
        bootAfterFlow := true;
      }
      return Some(serving);
    }
  }
}
