/**
 * The suspend procedure as the program runs it: a session performs the
 * external operations one at a time, appends each to its trace, and keeps
 * the set of initramfs targets currently bind-mounted. Every method is
 * proved to perform exactly the actions, and return exactly the error, of
 * the matching function in SuspendEffects.
 */
module SuspendSession {
  import opened Wrappers
  import opened ScriptVerifier
  import opened SuspendEffects

  class Session {
    /** Every external action performed so far, with its outcome. */
    var trace: seq<Action>
    /** The initramfs targets currently bind-mounted. */
    var bound: set<string>
    /** The outcomes the environment gives to each operation. */
    const world: World

    /** The mounted set is the one the trace leads to. */
    ghost predicate Valid()
      reads this
    {
      bound == After({}, trace)
    }

    constructor(w: World)
      ensures world == w && trace == [] && bound == {}
      ensures Valid()
    {
      world := w;
      trace := [];
      bound := {};
    }

    /** Perform one external action: log it and, for a mount or an unmount that succeeds, update the mounted set. */
    method Perform(a: Action)
      requires Valid()
      modifies this
      ensures Valid()
      ensures trace == old(trace) + [a] && bound == Apply(old(bound), a)
    {
      assert (trace + [a])[..|trace|] == trace;
      trace := trace + [a];
      bound := Apply(bound, a);
    }

    /** checkRootOwnedAndExecutablePath: stat the path, then check the metadata. */
    method CheckRootOwnedAndExecutablePath(path: string) returns (err: Option<Error>)
      requires Valid()
      modifies this
      ensures Valid()
      ensures trace == old(trace) + CheckPath(path, world).acts && err == CheckPath(path, world).err
      ensures bound == old(bound)
    {
      var fi := world.stat(path);
      Perform(Stat(path, fi.Some?));
      if fi.None? {
        return Some(StatFailed(path));
      }
      var r := Check(fi.value);
      if r.Some? {
        return Some(Untrusted(fi.value.name, r.value));
      }
      return None;
    }

    method GetCryptDevices() returns (err: Option<Error>)
      requires Valid()
      modifies this
      ensures Valid()
      ensures trace == old(trace) + CryptDevices(world).acts && err == CryptDevices(world).err
      ensures bound == old(bound)
    {
      var ok := world.cryptDevicesOk;
      Perform(ListCryptDevices(ok));
      err := if ok then None else Some(CryptDevicesFailed);
    }

    /**
     * bindInitramfs: bind-mount each bind path onto the initramfs, stopping at
     * the first failure. Its counterpart is the loop `BindInitramfs` is defined as.
     */
    method BindInitramfs() returns (err: Option<Error>)
      requires Valid()
      modifies this
      ensures Valid()
      ensures trace == old(trace) + MountLoop(Bind, BindPaths, world).acts
      ensures err == MountLoop(Bind, BindPaths, world).err
      ensures bound == old(bound) + TargetSet(BindPaths[..Succeeded(Bind, BindPaths, world)])
    {
      ghost var t0 := trace;
      ghost var steps := MountSteps(Bind, BindPaths, world);
      var i := 0;
      while i < |BindPaths|
        invariant 0 <= i <= |BindPaths|
        invariant Valid()
        invariant trace == t0 + Chain(steps[..i]).acts
        invariant Chain(steps[..i]).err.None?
      {
        var dir := BindPaths[i];
        var target := PathJoin(InitramfsPath, dir);
        var ok := world.mountOk(target);
        Perform(Mount(dir, target, ok));
        ChainNext(steps, i);
        if !ok {
          ChainEndsAt(steps, i);
          assert trace == t0 + MountLoop(Bind, BindPaths, world).acts;
          BoundAfter(t0, MountLoop(Bind, BindPaths, world).acts, Bind);
          return Some(MountFailed(target));
        }
        i := i + 1;
      }
      assert steps[..i] == steps;
      BoundAfter(t0, MountLoop(Bind, BindPaths, world).acts, Bind);
      return None;
    }

    /**
     * unbindInitramfs: unmount each target in the same order as binding,
     * stopping at the first failure. Its counterpart is the loop
     * `UnbindInitramfs` is defined as.
     */
    method UnbindInitramfs() returns (err: Option<Error>)
      requires Valid()
      modifies this
      ensures Valid()
      ensures trace == old(trace) + MountLoop(Unbind, BindPaths, world).acts
      ensures err == MountLoop(Unbind, BindPaths, world).err
      ensures bound == old(bound) - TargetSet(BindPaths[..Succeeded(Unbind, BindPaths, world)])
    {
      ghost var t0 := trace;
      ghost var steps := MountSteps(Unbind, BindPaths, world);
      var i := 0;
      while i < |BindPaths|
        invariant 0 <= i <= |BindPaths|
        invariant Valid()
        invariant trace == t0 + Chain(steps[..i]).acts
        invariant Chain(steps[..i]).err.None?
      {
        var target := PathJoin(InitramfsPath, BindPaths[i]);
        var ok := world.unmountOk(target);
        Perform(Unmount(target, ok));
        ChainNext(steps, i);
        if !ok {
          ChainEndsAt(steps, i);
          assert trace == t0 + MountLoop(Unbind, BindPaths, world).acts;
          BoundAfter(t0, MountLoop(Unbind, BindPaths, world).acts, Unbind);
          return Some(UnmountFailed(target));
        }
        i := i + 1;
      }
      assert steps[..i] == steps;
      BoundAfter(t0, MountLoop(Unbind, BindPaths, world).acts, Unbind);
      return None;
    }

    /** The mounted set after a mount loop, from the trace before it and the loop's actions. */
    lemma BoundAfter(t0: seq<Action>, acts: seq<Action>, op: MountOp)
      requires acts == MountLoop(op, BindPaths, world).acts
      requires bound == After({}, t0 + acts)
      ensures var n := Succeeded(op, BindPaths, world);
        bound == if op == Bind then After({}, t0) + TargetSet(BindPaths[..n]) else After({}, t0) - TargetSet(BindPaths[..n])
    {
      AfterAppend({}, t0, acts);
      MountLoopMounted(After({}, t0), op, BindPaths, world);
    }

    /**
     * runSystemSuspendScripts: read the hook directory, then check each entry;
     * an untrusted entry is reported and skipped, a trusted one is run, and the
     * first one that exits non-zero ends the loop.
     */
    method RunSystemSuspendScripts(scriptarg: string) returns (err: Option<Error>)
      requires Valid()
      modifies this
      ensures Valid()
      ensures trace == old(trace) + RunScripts(scriptarg, world).acts
      ensures err == RunScripts(scriptarg, world).err
      ensures bound == old(bound)
    {
      ghost var t0 := trace;
      var l := world.listing(scriptarg);
      Perform(OpenDir(SystemSleepPath, l.openOk));
      if !l.openOk {
        return Some(OpenFailed(SystemSleepPath));
      }
      Perform(ReadDir(SystemSleepPath, l.readOk));
      if !l.readOk {
        return Some(ReadFailed(SystemSleepPath));
      }
      Perform(CloseDir(SystemSleepPath, l.closeOk));
      if !l.closeOk {
        return Some(CloseFailed(SystemSleepPath));
      }
      assert trace == t0 + DirActs;
      err := RunEntries(l.entries, scriptarg);
      ghost var loop := Chain(ScriptSteps(l.entries, scriptarg, world));
      AppendAssoc(t0, DirActs, loop.acts);
    }

    /** The loop of runSystemSuspendScripts over the directory entries, in listing order. */
    method RunEntries(fs: seq<FileMeta>, scriptarg: string) returns (err: Option<Error>)
      requires Valid()
      modifies this
      ensures Valid()
      ensures trace == old(trace) + Chain(ScriptSteps(fs, scriptarg, world)).acts
      ensures err == Chain(ScriptSteps(fs, scriptarg, world)).err
      ensures bound == old(bound)
    {
      ghost var t0 := trace;
      ghost var steps := ScriptSteps(fs, scriptarg, world);
      assert steps[..0] == [];
      var i := 0;
      while i < |fs|
        invariant 0 <= i <= |fs|
        invariant Valid() && bound == old(bound)
        invariant trace == t0 + Chain(steps[..i]).acts
        invariant Chain(steps[..i]).err.None?
      {
        assert steps[i] == ScriptStep(fs[i], scriptarg, world);
        err := RunEntry(fs[i], scriptarg);
        ChainNext(steps, i);
        if err.Some? {
          ChainEndsAt(steps, i);
          return;
        }
        i := i + 1;
      }
      assert steps[..i] == steps;
      return None;
    }

    /** The body of that loop: skip an entry that fails the check, otherwise run it. */
    method RunEntry(f: FileMeta, scriptarg: string) returns (err: Option<Error>)
      requires Valid()
      modifies this
      ensures Valid()
      ensures trace == old(trace) + ScriptStep(f, scriptarg, world).acts
      ensures err == ScriptStep(f, scriptarg, world).err
      ensures bound == old(bound)
    {
      var r := Check(f);
      if r.Some? {
        Perform(Skip(f.name, r.value));
        return None;
      }
      var argv := [PathJoin(SystemSleepPath, f.name), scriptarg, "suspend"];
      var status := world.status(argv);
      Perform(Exec(argv, status));
      if status != 0 {
        return Some(ExitFailed(argv, status));
      }
      return None;
    }

    /** systemctlServices: run systemctl with the command and the journald units. */
    method SystemctlServices(command: string) returns (err: Option<Error>)
      requires Valid()
      modifies this
      ensures Valid()
      ensures trace == old(trace) + Systemctl(command, world).acts && err == Systemctl(command, world).err
      ensures bound == old(bound)
    {
      var argv := [SystemctlPath] + [command] + Services;
      assert argv == SystemctlArgv(command);
      var status := world.status(argv);
      Perform(Exec(argv, status));
      err := if status == 0 then None else Some(ExitFailed(argv, status));
    }

    method SyncDisks()
      requires Valid()
      modifies this
      ensures Valid()
      ensures trace == old(trace) + [Sync] && bound == old(bound)
    {
      Perform(Sync);
    }

    /** assert: on an error, a terminal abort carrying the debug flag and the error; what follows it is not modelled. */
    method Assert(err: Option<Error>, debug: bool) returns (aborted: bool)
      requires Valid()
      modifies this
      ensures Valid()
      ensures aborted == err.Some?
      ensures trace == old(trace) + (if err.Some? then [Abort(debug, err.value)] else [])
      ensures bound == old(bound)
    {
      if err.Some? {
        Perform(Abort(debug, err.value));
        return true;
      }
      return false;
    }

    /** The trace of a run of main that aborted at step k. */
    lemma AbortedAt(debug: bool, t0: seq<Action>, k: nat)
      requires k < 9
      requires Chain(MainSteps(world)[..k]).err.None? && MainSteps(world)[k].err.Some?
      requires trace == t0 + Chain(MainSteps(world)[..k + 1]).acts + [Abort(debug, MainSteps(world)[k].err.value)]
      ensures trace == t0 + MainRun(debug, world).acts
      ensures MainRun(debug, world).outcome == Aborted(debug, MainSteps(world)[k].err.value)
    {
      ChainNext(MainSteps(world), k);
      MainRunAbortsAt(debug, world, k);
    }

    /** The steps of main before step k succeeded and produced the trace after t0. */
    ghost predicate Ran(t0: seq<Action>, k: nat)
      reads this
    {
      k <= 9 && Upto(MainSteps(world), k).err.None? && trace == t0 + Upto(MainSteps(world), k).acts
    }

    /** main has ended with the given outcome and the trace after t0 is its run. */
    ghost predicate Ended(t0: seq<Action>, debug: bool, outcome: Outcome)
      reads this
    {
      trace == t0 + MainRun(debug, world).acts && MainRun(debug, world).outcome == outcome
    }

    /**
     * Statement k of main, before its assert: the operation MainStep(world, k)
     * describes. Statement 8 is the deferred unbind, which runs when the other
     * eight have succeeded.
     */
    method Statement(k: nat) returns (err: Option<Error>)
      requires Valid() && k < 9
      modifies this
      ensures Valid()
      ensures trace == old(trace) + MainSteps(world)[k].acts && err == MainSteps(world)[k].err
    {
      match k
      case 0 => err := CheckRootOwnedAndExecutablePath(HandoverPath());
      case 1 => err := GetCryptDevices();
      case 2 => err := BindInitramfs();
      case 3 => err := RunSystemSuspendScripts("pre");
      case 4 => err := SystemctlServices("stop");
      case 5 => SyncDisks(); err := None;
      case 6 => err := SystemctlServices("start");
      case 7 => err := RunSystemSuspendScripts("post");
      case _ => err := UnbindInitramfs();
    }

    /** Statement k of main, wrapped in assert. */
    method AssertedStep(debug: bool, ghost t0: seq<Action>, k: nat) returns (err: Option<Error>)
      requires Valid() && k < 9 && Ran(t0, k)
      modifies this
      ensures Valid()
      ensures err.Some? ==> Ended(t0, debug, Aborted(debug, err.value))
      ensures err.None? ==> Ran(t0, k + 1)
      ensures err.None? && k == 8 ==> Ended(t0, debug, Completed)
    {
      UptoIsChain(MainSteps(world), k);
      UptoIsChain(MainSteps(world), k + 1);
      ghost var before := trace;
      err := Statement(k);
      ChainExtends(MainSteps(world), k, t0, before, trace);
      var aborted := Assert(err, debug);
      if aborted {
        AbortedAt(debug, t0, k);
      } else if k == 8 {
        assert MainSteps(world)[..9] == MainSteps(world);
      }
    }

    /**
     * main: the nine statements of Statement, each through assert, in order;
     * the first error ends the run. The step number is a counter rather than
     * a literal so that the verifier does not unfold the whole run at each
     * step.
     */
    method Suspend(debug: bool) returns (outcome: Outcome)
      requires Valid()
      modifies this
      ensures Valid()
      ensures Ended(old(trace), debug, outcome)
    {
      ghost var t0 := trace;
      var err;
      var k: nat := 0;
      // 0: check that the handover program is root-owned and executable
      err := AssertedStep(debug, t0, k);
      if err.Some? { return Aborted(debug, err.value); }
      k := k + 1;
      // 1: query the crypt devices
      err := AssertedStep(debug, t0, k);
      if err.Some? { return Aborted(debug, err.value); }
      k := k + 1;
      // 2: prepare the chroot: bind /sys, /proc, /dev and /run
      err := AssertedStep(debug, t0, k);
      if err.Some? { return Aborted(debug, err.value); }
      k := k + 1;
      // 3: run the "pre" hooks
      err := AssertedStep(debug, t0, k);
      if err.Some? { return Aborted(debug, err.value); }
      k := k + 1;
      // 4: stop the services that may block suspend
      err := AssertedStep(debug, t0, k);
      if err.Some? { return Aborted(debug, err.value); }
      k := k + 1;
      // 5: flush writes; sync reports no error, so nothing is asserted
      err := AssertedStep(debug, t0, k);
      if err.Some? { return Aborted(debug, err.value); }
      k := k + 1;
      // 6: restart the stopped services
      err := AssertedStep(debug, t0, k);
      if err.Some? { return Aborted(debug, err.value); }
      k := k + 1;
      // 7: run the "post" hooks
      err := AssertedStep(debug, t0, k);
      if err.Some? { return Aborted(debug, err.value); }
      k := k + 1;
      // 8: the deferred call: unbind the four targets
      err := AssertedStep(debug, t0, k);
      if err.Some? { return Aborted(debug, err.value); }
      return Completed;
    }
  }
}
