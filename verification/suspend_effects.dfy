/**
 * The suspend procedure of arch-luks-suspend, as the log of external actions
 * it performs.
 *
 * Every external operation (stat, mount, unmount, directory reads, process
 * execution, sync) is an Action in a trace. Its success or failure, and each
 * process's exit status, come from a World supplied as input. Each step of
 * the program yields an Effect: the actions it performed and the error it
 * returned. Chain strings steps together the way the Go code does with its
 * early returns: it runs steps in order and stops at the first error.
 */
module SuspendEffects {
  import opened Wrappers
  import opened ScriptVerifier

  const InitramfsPath := "/run/initramfs"
  const SystemSleepPath := "/usr/lib/systemd/system-sleep"
  const SystemctlPath := "/usr/bin/systemctl"
  /** Directories bind-mounted into the initramfs root, in binding order. */
  const BindPaths: seq<string> := ["/sys", "/proc", "/dev", "/run"]
  /** journald may try to write to the suspended device, so its units are stopped. */
  const Services: seq<string> :=
    ["systemd-journald-dev-log.socket", "systemd-journald.socket", "systemd-journald.service"]

  /** Joining a directory and a name; a name that starts with '/' is appended as is. */
  function PathJoin(dir: string, name: string): string
  {
    if |name| > 0 && name[0] == '/' then dir + name else dir + "/" + name
  }

  /** The unlock-handover program inside the initramfs. */
  function HandoverPath(): string { PathJoin(InitramfsPath, "suspend") }

  /** Where a bind path is mounted inside the initramfs. */
  function Target(dir: string): string { PathJoin(InitramfsPath, dir) }

  /** The bind targets, in binding order. */
  const TargetOrder: seq<string> :=
    ["/run/initramfs/sys", "/run/initramfs/proc", "/run/initramfs/dev", "/run/initramfs/run"]

  datatype Error =
    | StatFailed(path: string)
    | Untrusted(name: string, reason: Reason)
    | CryptDevicesFailed
    | OpenFailed(path: string)
    | ReadFailed(path: string)
    | CloseFailed(path: string)
    | MountFailed(target: string)
    | UnmountFailed(target: string)
    | ExitFailed(argv: seq<string>, status: int)

  /** One external action, with the outcome the world gave it. */
  datatype Action =
    | Stat(path: string, found: bool)
    | ListCryptDevices(ok: bool)
    | Mount(source: string, target: string, ok: bool)
    | Unmount(target: string, ok: bool)
    | OpenDir(path: string, ok: bool)
    | ReadDir(path: string, ok: bool)
    | CloseDir(path: string, ok: bool)
    | Skip(name: string, reason: Reason)       // diagnostic printed for an untrusted hook
    | Exec(argv: seq<string>, status: int)     // status 0 is success
    | Sync
    | Abort(debug: bool, err: Error)           // a failed assert: print, then Poweroff(debug)

  /** What a read of the hook directory returns. */
  datatype Listing = Listing(openOk: bool, readOk: bool, closeOk: bool, entries: seq<FileMeta>)

  /**
   * The outcomes of every external operation. Each operation happens at most
   * once per run, so an outcome is a function of what is attempted: the path
   * stat-ed, the mount target, the argument vector executed, and the phase
   * ("pre" or "post") for which the hook directory is listed.
   */
  datatype World = World(
    stat: string -> Option<FileMeta>,
    cryptDevicesOk: bool,
    listing: string -> Listing,
    mountOk: string -> bool,
    unmountOk: string -> bool,
    status: seq<string> -> int)

  datatype Effect = Effect(acts: seq<Action>, err: Option<Error>)

  // ---------------------------------------------------------------------
  // Sequencing with early return

  /** Run the steps in order; stop after the first one that returns an error. */
  function Chain(effs: seq<Effect>): Effect
  {
    if effs == [] then Effect([], None)
    else if effs[0].err.Some? then effs[0]
    else
      var rest := Chain(effs[1..]);
      Effect(effs[0].acts + rest.acts, rest.err)
  }

  /** All the steps' actions, one after another. */
  function Flatten(effs: seq<Effect>): seq<Action>
  {
    if effs == [] then [] else effs[0].acts + Flatten(effs[1..])
  }

  lemma {:induction false} FlattenAppend(a: seq<Effect>, b: seq<Effect>)
    ensures Flatten(a + b) == Flatten(a) + Flatten(b)
  {
    if a == [] {
      assert a + b == b;
    } else {
      assert (a + b)[1..] == a[1..] + b;
      FlattenAppend(a[1..], b);
    }
  }

  lemma FlattenSuffix(effs: seq<Effect>, k: nat)
    requires k < |effs|
    ensures Flatten(effs[k..]) == effs[k].acts + Flatten(effs[k + 1..])
  {
    assert effs[k..][1..] == effs[k + 1..];
  }

  /** A chain that completes without error is followed by the next one. */
  lemma {:induction false} ChainAppend(a: seq<Effect>, b: seq<Effect>)
    ensures Chain(a).err.None? ==> Chain(a + b) == Effect(Chain(a).acts + Chain(b).acts, Chain(b).err)
  {
    if a == [] {
      assert a + b == b;
    } else if a[0].err.None? {
      assert (a + b)[1..] == a[1..] + b;
      ChainAppend(a[1..], b);
    }
  }

  /** Once a step has failed, nothing appended afterwards is run. */
  lemma {:induction false} ChainStops(a: seq<Effect>, b: seq<Effect>)
    ensures Chain(a).err.Some? ==> Chain(a + b) == Chain(a)
  {
    if a != [] && a[0].err.None? {
      assert (a + b)[1..] == a[1..] + b;
      ChainStops(a[1..], b);
    }
  }

  /** A chain succeeds exactly when every step does, and then performs all their actions. */
  lemma {:induction false} ChainOk(effs: seq<Effect>)
    ensures Chain(effs).err.None? <==> forall i :: 0 <= i < |effs| ==> effs[i].err.None?
    ensures Chain(effs).err.None? ==> Chain(effs).acts == Flatten(effs)
  {
    if effs != [] {
      ChainOk(effs[1..]);
      assert forall i :: 1 <= i < |effs| ==> effs[i] == effs[1..][i - 1];
    }
  }

  /** Step k is the first to fail, and the chain's result is the actions up to it and its error. */
  predicate FailsAt(effs: seq<Effect>, k: nat)
  {
    && k < |effs|
    && (forall i :: 0 <= i < k ==> effs[i].err.None?)
    && effs[k].err.Some?
    && Chain(effs) == Effect(Flatten(effs[..k]) + effs[k].acts, effs[k].err)
  }

  lemma {:induction false} ChainFirstFailure(effs: seq<Effect>)
    ensures Chain(effs).err.Some? ==> exists k: nat :: FailsAt(effs, k)
  {
    if effs != [] {
      if effs[0].err.Some? {
        assert effs[..0] == [];
        assert FailsAt(effs, 0);
      } else if Chain(effs).err.Some? {
        ChainFirstFailure(effs[1..]);
        var k: nat :| FailsAt(effs[1..], k);
        assert effs[..k + 1][1..] == effs[1..][..k];
        assert effs[..k + 1][0] == effs[0];
        assert forall i :: 1 <= i < k + 1 ==> effs[i] == effs[1..][i - 1];
        assert FailsAt(effs, k + 1);
      }
    }
  }

  /** One more step after a prefix that succeeded. */
  lemma ChainNext(effs: seq<Effect>, i: nat)
    requires i < |effs| && Chain(effs[..i]).err.None?
    ensures Chain(effs[..i + 1]) == Effect(Chain(effs[..i]).acts + effs[i].acts, effs[i].err)
  {
    assert effs[..i + 1] == effs[..i] + [effs[i]];
    ChainAppend(effs[..i], [effs[i]]);
  }

  lemma AppendAssoc(a: seq<Action>, b: seq<Action>, c: seq<Action>)
    ensures a + b + c == a + (b + c)
  {
  }

  /** A trace that held the prefix's actions, extended by the next step's actions. */
  lemma ChainExtends(effs: seq<Effect>, k: nat, t0: seq<Action>, before: seq<Action>, after: seq<Action>)
    requires k < |effs| && Chain(effs[..k]).err.None?
    requires before == t0 + Chain(effs[..k]).acts && after == before + effs[k].acts
    ensures after == t0 + Chain(effs[..k + 1]).acts && Chain(effs[..k + 1]).err == effs[k].err
  {
    ChainNext(effs, k);
  }

  /** A failing step after a prefix that succeeded ends the whole chain. */
  lemma ChainEndsAt(effs: seq<Effect>, i: nat)
    requires i < |effs| && Chain(effs[..i]).err.None? && effs[i].err.Some?
    ensures Chain(effs) == Effect(Chain(effs[..i]).acts + effs[i].acts, effs[i].err)
  {
    var done, rest := effs[..i + 1], effs[i + 1..];
    ChainNext(effs, i);
    assert Chain(done).err.Some?;
    ChainStops(done, rest);
    assert done + rest == effs;
  }

  // ---------------------------------------------------------------------
  // checkRootOwnedAndExecutablePath

  /** Stat the path and check the result, as checkRootOwnedAndExecutablePath does. */
  function CheckPath(path: string, w: World): (e: Effect)
    ensures e.err.None? <==> w.stat(path).Some? && Check(w.stat(path).value).None?
    ensures e.acts == [Stat(path, w.stat(path).Some?)]
  {
    match w.stat(path)
    case None => Effect([Stat(path, false)], Some(StatFailed(path)))
    case Some(fi) =>
      var r := Check(fi);
      Effect([Stat(path, true)], if r.None? then None else Some(Untrusted(fi.name, r.value)))
  }

  /** GetCryptDevices queries the crypt devices once and fails exactly when the query does. */
  function CryptDevices(w: World): (e: Effect)
    ensures e.acts == [ListCryptDevices(w.cryptDevicesOk)]
    ensures e.err.None? <==> w.cryptDevicesOk
    ensures e.err.Some? ==> e.err.value == CryptDevicesFailed
  {
    Effect([ListCryptDevices(w.cryptDevicesOk)], if w.cryptDevicesOk then None else Some(CryptDevicesFailed))
  }

  // ---------------------------------------------------------------------
  // bindInitramfs / unbindInitramfs

  datatype MountOp = Bind | Unbind

  function MountAction(op: MountOp, dir: string, ok: bool): Action
  {
    match op
    case Bind => Mount(dir, Target(dir), ok)
    case Unbind => Unmount(Target(dir), ok)
  }

  function MountError(op: MountOp, dir: string): Error
  {
    match op
    case Bind => MountFailed(Target(dir))
    case Unbind => UnmountFailed(Target(dir))
  }

  function Succeeds(op: MountOp, dir: string, w: World): bool
  {
    match op
    case Bind => w.mountOk(Target(dir))
    case Unbind => w.unmountOk(Target(dir))
  }

  function MountStep(op: MountOp, dir: string, w: World): Effect
  {
    var ok := Succeeds(op, dir, w);
    Effect([MountAction(op, dir, ok)], if ok then None else Some(MountError(op, dir)))
  }

  function MountSteps(op: MountOp, dirs: seq<string>, w: World): (s: seq<Effect>)
    ensures |s| == |dirs|
  {
    seq(|dirs|, i requires 0 <= i < |dirs| => MountStep(op, dirs[i], w))
  }

  /**
   * The loop over the directories with its early return: it performs the
   * operation on the leading directories that succeed and on the first one
   * that fails, returns that failure, and attempts nothing after it.
   */
  function MountLoop(op: MountOp, dirs: seq<string>, w: World): (e: Effect)
    ensures var n := Succeeded(op, dirs, w);
      e == if n == |dirs| then Effect(OkActions(op, dirs), None)
           else Effect(OkActions(op, dirs[..n]) + [MountAction(op, dirs[n], false)], Some(MountError(op, dirs[n])))
  {
    MountStepsShape(op, dirs, w);
    Chain(MountSteps(op, dirs, w))
  }

  /**
   * bindInitramfs mounts /sys, /proc, /dev, /run onto /run/initramfs/<dir> in
   * that order, and succeeds exactly when all four mounts do.
   */
  function BindInitramfs(w: World): (e: Effect)
    ensures e.err.None? <==> forall d :: d in BindPaths ==> w.mountOk(Target(d))
    ensures Targets(e.acts) <= TargetOrder
  {
    MountLoopTargets(Bind, BindPaths, w);
    TargetOrderIsBindPaths();
    var n := Succeeded(Bind, BindPaths, w);
    assert n < |BindPaths| ==> BindPaths[n] in BindPaths;
    MountLoop(Bind, BindPaths, w)
  }

  /**
   * unbindInitramfs unmounts the targets in the same order as binding, not in
   * reverse, and succeeds exactly when all four unmounts do.
   */
  function UnbindInitramfs(w: World): (e: Effect)
    ensures e.err.None? <==> forall d :: d in BindPaths ==> w.unmountOk(Target(d))
    ensures Targets(e.acts) <= TargetOrder
  {
    MountLoopTargets(Unbind, BindPaths, w);
    TargetOrderIsBindPaths();
    var n := Succeeded(Unbind, BindPaths, w);
    assert n < |BindPaths| ==> BindPaths[n] in BindPaths;
    MountLoop(Unbind, BindPaths, w)
  }

  /** A complete bind performs exactly these four mounts, in this order. */
  lemma BindInitramfsInOrder(w: World)
    requires BindInitramfs(w).err.None?
    ensures BindInitramfs(w).acts ==
      [Mount("/sys", "/run/initramfs/sys", true), Mount("/proc", "/run/initramfs/proc", true),
       Mount("/dev", "/run/initramfs/dev", true), Mount("/run", "/run/initramfs/run", true)]
  {
    BindOkActions();
  }

  /**
   * A complete unbind performs exactly these four unmounts, which visit the
   * targets of a complete bind in the same order rather than in reverse.
   */
  lemma UnbindSameOrderAsBind(w: World)
    requires UnbindInitramfs(w).err.None?
    ensures UnbindInitramfs(w).acts ==
      [Unmount("/run/initramfs/sys", true), Unmount("/run/initramfs/proc", true),
       Unmount("/run/initramfs/dev", true), Unmount("/run/initramfs/run", true)]
    ensures BindInitramfs(w).err.None? ==> Targets(UnbindInitramfs(w).acts) == Targets(BindInitramfs(w).acts)
  {
    UnbindOkActions();
    MountLoopTargets(Unbind, BindPaths, w);
    MountLoopTargets(Bind, BindPaths, w);
  }

  /** The actions of a run of the loop in which every operation succeeds. */
  function OkActions(op: MountOp, dirs: seq<string>): (acts: seq<Action>)
    ensures |acts| == |dirs|
  {
    seq(|dirs|, i requires 0 <= i < |dirs| => MountAction(op, dirs[i], true))
  }

  /** The number of leading directories whose operation succeeds. */
  function Succeeded(op: MountOp, dirs: seq<string>, w: World): (n: nat)
    ensures n <= |dirs|
    ensures forall i :: 0 <= i < n ==> Succeeds(op, dirs[i], w)
    ensures n < |dirs| ==> !Succeeds(op, dirs[n], w)
  {
    if dirs == [] || !Succeeds(op, dirs[0], w) then 0 else 1 + Succeeded(op, dirs[1..], w)
  }

  /** What MountLoop computes, proved over the chained steps. */
  lemma {:induction false} MountStepsShape(op: MountOp, dirs: seq<string>, w: World)
    ensures var n := Succeeded(op, dirs, w);
      Chain(MountSteps(op, dirs, w)) ==
        if n == |dirs| then Effect(OkActions(op, dirs), None)
        else Effect(OkActions(op, dirs[..n]) + [MountAction(op, dirs[n], false)], Some(MountError(op, dirs[n])))
  {
    if dirs != [] {
      MountStepsCons(op, dirs, w);
      if Succeeds(op, dirs[0], w) {
        MountStepsShape(op, dirs[1..], w);
        var n := Succeeded(op, dirs, w);
        OkActionsCons(op, dirs);
        if n < |dirs| {
          assert dirs[1..][n - 1] == dirs[n];
          assert dirs[1..][..n - 1] == dirs[..n][1..];
          OkActionsCons(op, dirs[..n]);
        } else {
          assert n - 1 == |dirs[1..]|;
        }
      } else {
        assert dirs[..0] == [];
        assert OkActions(op, []) == [];
      }
    }
  }

  /** One turn of the loop: the first directory, then the rest unless it failed. */
  lemma MountStepsCons(op: MountOp, dirs: seq<string>, w: World)
    requires dirs != []
    ensures var rest := Chain(MountSteps(op, dirs[1..], w));
      Chain(MountSteps(op, dirs, w)) ==
        if Succeeds(op, dirs[0], w) then Effect([MountAction(op, dirs[0], true)] + rest.acts, rest.err)
        else Effect([MountAction(op, dirs[0], false)], Some(MountError(op, dirs[0])))
  {
    var steps := MountSteps(op, dirs, w);
    assert steps[1..] == MountSteps(op, dirs[1..], w);
  }

  lemma OkActionsCons(op: MountOp, dirs: seq<string>)
    requires dirs != []
    ensures OkActions(op, dirs) == [MountAction(op, dirs[0], true)] + OkActions(op, dirs[1..])
  {
    assert OkActions(op, dirs)[1..] == OkActions(op, dirs[1..]);
  }

  /** Target paths of the mount and unmount actions in a trace, in order. */
  function Targets(acts: seq<Action>): seq<string>
  {
    if acts == [] then []
    else (if acts[0].Mount? || acts[0].Unmount? then [acts[0].target] else []) + Targets(acts[1..])
  }

  lemma {:induction false} TargetsAppend(a: seq<Action>, b: seq<Action>)
    ensures Targets(a + b) == Targets(a) + Targets(b)
  {
    if a == [] {
      assert a + b == b;
    } else {
      var h := if a[0].Mount? || a[0].Unmount? then [a[0].target] else [];
      assert (a + b)[0] == a[0] && (a + b)[1..] == a[1..] + b;
      assert Targets(a + b) == h + Targets(a[1..] + b);
      TargetsAppend(a[1..], b);
      assert h + (Targets(a[1..]) + Targets(b)) == (h + Targets(a[1..])) + Targets(b);
    }
  }

  lemma {:induction false} TargetsOfOk(op: MountOp, dirs: seq<string>)
    ensures Targets(OkActions(op, dirs)) == seq(|dirs|, i requires 0 <= i < |dirs| => Target(dirs[i]))
  {
    if dirs != [] {
      var acts := OkActions(op, dirs);
      assert acts[1..] == OkActions(op, dirs[1..]);
      TargetsOfOk(op, dirs[1..]);
      assert acts[0].target == Target(dirs[0]);
      assert Targets(acts) == [Target(dirs[0])] + Targets(acts[1..]);
      var all := seq(|dirs|, i requires 0 <= i < |dirs| => Target(dirs[i]));
      assert all == [Target(dirs[0])] + seq(|dirs[1..]|, i requires 0 <= i < |dirs[1..]| => Target(dirs[1..][i]));
    }
  }

  /** Both loops visit the targets in the order of the bind paths and attempt a prefix of them. */
  lemma MountLoopTargets(op: MountOp, dirs: seq<string>, w: World)
    ensures var all := seq(|dirs|, i requires 0 <= i < |dirs| => Target(dirs[i]));
      Targets(MountLoop(op, dirs, w).acts) <= all
      && (MountLoop(op, dirs, w).err.None? ==> Targets(MountLoop(op, dirs, w).acts) == all)
  {
    var n := Succeeded(op, dirs, w);
    if n < |dirs| {
      TargetsOfOk(op, dirs[..n]);
      TargetsAppend(OkActions(op, dirs[..n]), [MountAction(op, dirs[n], false)]);
      assert Targets([MountAction(op, dirs[n], false)]) == [Target(dirs[n])];
    } else {
      TargetsOfOk(op, dirs);
    }
  }

  lemma TargetValues()
    ensures Target("/sys") == "/run/initramfs/sys" && Target("/proc") == "/run/initramfs/proc"
    ensures Target("/dev") == "/run/initramfs/dev" && Target("/run") == "/run/initramfs/run"
  {
  }

  lemma TargetOrderIsBindPaths()
    ensures seq(|BindPaths|, i requires 0 <= i < |BindPaths| => Target(BindPaths[i])) == TargetOrder
  {
    TargetValues();
    var all := seq(|BindPaths|, i requires 0 <= i < |BindPaths| => Target(BindPaths[i]));
    assert all[0] == TargetOrder[0] && all[1] == TargetOrder[1];
    assert all[2] == TargetOrder[2] && all[3] == TargetOrder[3];
  }

  lemma BindOkActions()
    ensures OkActions(Bind, BindPaths) ==
      [Mount("/sys", "/run/initramfs/sys", true), Mount("/proc", "/run/initramfs/proc", true),
       Mount("/dev", "/run/initramfs/dev", true), Mount("/run", "/run/initramfs/run", true)]
  {
    TargetValues();
    var acts := OkActions(Bind, BindPaths);
    assert acts[0] == Mount("/sys", "/run/initramfs/sys", true) && acts[1] == Mount("/proc", "/run/initramfs/proc", true);
    assert acts[2] == Mount("/dev", "/run/initramfs/dev", true) && acts[3] == Mount("/run", "/run/initramfs/run", true);
  }

  lemma UnbindOkActions()
    ensures OkActions(Unbind, BindPaths) ==
      [Unmount("/run/initramfs/sys", true), Unmount("/run/initramfs/proc", true),
       Unmount("/run/initramfs/dev", true), Unmount("/run/initramfs/run", true)]
  {
    TargetValues();
    var acts := OkActions(Unbind, BindPaths);
    assert acts[0] == Unmount("/run/initramfs/sys", true) && acts[1] == Unmount("/run/initramfs/proc", true);
    assert acts[2] == Unmount("/run/initramfs/dev", true) && acts[3] == Unmount("/run/initramfs/run", true);
  }

  // ---------------------------------------------------------------------
  // The set of mounted targets

  function Apply(m: set<string>, a: Action): set<string>
  {
    match a
    case Mount(_, t, ok) => if ok then m + {t} else m
    case Unmount(t, ok) => if ok then m - {t} else m
    case _ => m
  }

  /** The mounted targets after the actions, starting from m. */
  function After(m: set<string>, acts: seq<Action>): set<string>
    decreases |acts|
  {
    if acts == [] then m else Apply(After(m, acts[..|acts| - 1]), acts[|acts| - 1])
  }

  lemma {:induction false} AfterAppend(m: set<string>, a: seq<Action>, b: seq<Action>)
    ensures After(m, a + b) == After(After(m, a), b)
    decreases |b|
  {
    if b == [] {
      assert a + b == a;
    } else {
      assert (a + b)[..|a + b| - 1] == a + b[..|b| - 1];
      AfterAppend(m, a, b[..|b| - 1]);
    }
  }

  predicate MountFree(acts: seq<Action>)
  {
    forall i :: 0 <= i < |acts| ==> !acts[i].Mount? && !acts[i].Unmount?
  }

  lemma {:induction false} AfterMountFree(m: set<string>, acts: seq<Action>)
    requires MountFree(acts)
    ensures After(m, acts) == m
    decreases |acts|
  {
    if acts != [] {
      AfterMountFree(m, acts[..|acts| - 1]);
    }
  }

  lemma {:induction false} ChainMountFree(effs: seq<Effect>)
    requires forall i :: 0 <= i < |effs| ==> MountFree(effs[i].acts)
    ensures MountFree(Chain(effs).acts)
  {
    if effs != [] && effs[0].err.None? {
      assert forall i :: 1 <= i < |effs| ==> effs[i] == effs[1..][i - 1];
      ChainMountFree(effs[1..]);
      var a, b := effs[0].acts, Chain(effs[1..]).acts;
      assert forall i :: |a| <= i < |a + b| ==> (a + b)[i] == b[i - |a|];
    }
  }

  /** The targets of the leading dirs, as a set. */
  function TargetSet(dirs: seq<string>): set<string>
  {
    set i | 0 <= i < |dirs| :: Target(dirs[i])
  }

  lemma {:induction false} AfterOk(m: set<string>, op: MountOp, dirs: seq<string>)
    ensures After(m, OkActions(op, dirs)) == if op == Bind then m + TargetSet(dirs) else m - TargetSet(dirs)
    decreases |dirs|
  {
    if dirs != [] {
      var k := |dirs| - 1;
      assert OkActions(op, dirs)[..k] == OkActions(op, dirs[..k]);
      AfterOk(m, op, dirs[..k]);
      assert TargetSet(dirs) == TargetSet(dirs[..k]) + {Target(dirs[k])};
    }
  }

  /** A failed mount or unmount leaves the mounted set as it was. */
  lemma AfterFailed(m: set<string>, op: MountOp, dir: string)
    ensures After(m, [MountAction(op, dir, false)]) == m
  {
    assert [MountAction(op, dir, false)][..0] == [];
  }

  /**
   * After either loop the mounted set has gained (bind) or lost (unbind)
   * exactly the targets whose operation succeeded; a failed operation changes
   * nothing.
   */
  lemma MountLoopMounted(m: set<string>, op: MountOp, dirs: seq<string>, w: World)
    ensures var n := Succeeded(op, dirs, w);
      After(m, MountLoop(op, dirs, w).acts) == if op == Bind then m + TargetSet(dirs[..n]) else m - TargetSet(dirs[..n])
  {
    var n := Succeeded(op, dirs, w);
    if n < |dirs| {
      AfterOk(m, op, dirs[..n]);
      AfterAppend(m, OkActions(op, dirs[..n]), [MountAction(op, dirs[n], false)]);
      AfterFailed(After(m, OkActions(op, dirs[..n])), op, dirs[n]);
    } else {
      assert dirs[..n] == dirs;
      AfterOk(m, op, dirs);
    }
  }

  // ---------------------------------------------------------------------
  // runSystemSuspendScripts

  /** A hook is run as `<systemSleepPath>/<name> <scriptarg> suspend`. */
  function ScriptArgv(name: string, arg: string): seq<string>
  {
    [PathJoin(SystemSleepPath, name), arg, "suspend"]
  }

  /**
   * One directory entry: skipped with a diagnostic if untrusted, otherwise run.
   * It takes one action, an exec exactly when the entry passes the check and
   * otherwise a skip naming the reason, and it fails exactly when the entry is
   * run and exits non-zero.
   */
  function ScriptStep(e: FileMeta, arg: string, w: World): (s: Effect)
    ensures |s.acts| == 1 && (s.acts[0].Exec? <==> Check(e).None?)
    ensures Check(e).Some? ==> s.acts[0] == Skip(e.name, Check(e).value)
    ensures s.err.Some? <==> Check(e).None? && w.status(ScriptArgv(e.name, arg)) != 0
  {
    match Check(e)
    case Some(r) => Effect([Skip(e.name, r)], None)
    case None =>
      var argv := ScriptArgv(e.name, arg);
      var st := w.status(argv);
      Effect([Exec(argv, st)], if st == 0 then None else Some(ExitFailed(argv, st)))
  }

  function ScriptSteps(es: seq<FileMeta>, arg: string, w: World): (s: seq<Effect>)
    ensures |s| == |es|
  {
    seq(|es|, i requires 0 <= i < |es| => ScriptStep(es[i], arg, w))
  }

  predicate DirOk(l: Listing) { l.openOk && l.readOk && l.closeOk }

  const DirActs: seq<Action> :=
    [OpenDir(SystemSleepPath, true), ReadDir(SystemSleepPath, true), CloseDir(SystemSleepPath, true)]

  predicate DirAction(a: Action) { a.OpenDir? || a.ReadDir? || a.CloseDir? }

  /**
   * runSystemSuspendScripts: open, read and close the hook directory, each
   * error returned at once (a read error without closing); then the loop
   * over the entries.
   */
  function RunScripts(arg: string, w: World): (r: Effect)
    ensures var l := w.listing(arg);
      !l.openOk ==> r == Effect([OpenDir(SystemSleepPath, false)], Some(OpenFailed(SystemSleepPath)))
    ensures var l := w.listing(arg);
      l.openOk && !l.readOk ==>
        r == Effect([OpenDir(SystemSleepPath, true), ReadDir(SystemSleepPath, false)], Some(ReadFailed(SystemSleepPath)))
    ensures var l := w.listing(arg);
      l.openOk && l.readOk && !l.closeOk ==>
        r == Effect([OpenDir(SystemSleepPath, true), ReadDir(SystemSleepPath, true), CloseDir(SystemSleepPath, false)],
                    Some(CloseFailed(SystemSleepPath)))
    ensures !DirOk(w.listing(arg)) ==> forall i :: 0 <= i < |r.acts| ==> DirAction(r.acts[i])
    ensures DirOk(w.listing(arg)) ==> DirActs <= r.acts
  {
    var l := w.listing(arg);
    if !l.openOk then
      Effect([OpenDir(SystemSleepPath, false)], Some(OpenFailed(SystemSleepPath)))
    else if !l.readOk then
      Effect([OpenDir(SystemSleepPath, true), ReadDir(SystemSleepPath, false)], Some(ReadFailed(SystemSleepPath)))
    else if !l.closeOk then
      Effect([OpenDir(SystemSleepPath, true), ReadDir(SystemSleepPath, true), CloseDir(SystemSleepPath, false)],
             Some(CloseFailed(SystemSleepPath)))
    else
      var loop := Chain(ScriptSteps(l.entries, arg, w));
      Effect(DirActs + loop.acts, loop.err)
  }

  /** The argument vectors of the Exec actions of a trace, in order. */
  function Executed(acts: seq<Action>): seq<seq<string>>
  {
    if acts == [] then []
    else (if acts[0].Exec? then [acts[0].argv] else []) + Executed(acts[1..])
  }

  /** The argument vectors of the entries that pass the check, in listing order. */
  function VerifiedArgvs(es: seq<FileMeta>, arg: string): seq<seq<string>>
  {
    if es == [] then []
    else (if Check(es[0]).None? then [ScriptArgv(es[0].name, arg)] else []) + VerifiedArgvs(es[1..], arg)
  }

  lemma {:induction false} ExecutedAppend(a: seq<Action>, b: seq<Action>)
    ensures Executed(a + b) == Executed(a) + Executed(b)
  {
    if a == [] {
      assert a + b == b;
    } else {
      assert (a + b)[1..] == a[1..] + b;
      ExecutedAppend(a[1..], b);
    }
  }

  lemma {:induction false} ExecutedNone(acts: seq<Action>)
    requires forall i :: 0 <= i < |acts| ==> !acts[i].Exec?
    ensures Executed(acts) == []
  {
    if acts != [] {
      ExecutedNone(acts[1..]);
    }
  }

  /**
   * One entry runs its hook exactly when it passes the check. An untrusted
   * entry is skipped with its reason and no error; a trusted one is executed,
   * and its non-zero exit status is the error.
   */
  lemma ScriptStepRuns(e: FileMeta, arg: string, w: World)
    ensures var s := ScriptStep(e, arg, w);
      && Executed(s.acts) == (if Check(e).None? then [ScriptArgv(e.name, arg)] else [])
      && (Check(e).Some? ==> s == Effect([Skip(e.name, Check(e).value)], None))
      && (Check(e).None? ==> var argv := ScriptArgv(e.name, arg); var st := w.status(argv);
            s == Effect([Exec(argv, st)], if st == 0 then None else Some(ExitFailed(argv, st))))
  {
    var s := ScriptStep(e, arg, w);
    assert s.acts[1..] == [];
  }

  /**
   * The loop over the entries runs the verified hooks, and only those, one at a
   * time in listing order: what it executes is a prefix of the verified
   * entries, and all of them when it returns nil.
   */
  lemma {:induction false} ScriptLoopRunsVerified(es: seq<FileMeta>, arg: string, w: World)
    ensures var r := Chain(ScriptSteps(es, arg, w));
      && Executed(r.acts) <= VerifiedArgvs(es, arg)
      && (r.err.None? ==> Executed(r.acts) == VerifiedArgvs(es, arg))
  {
    if es != [] {
      var steps := ScriptSteps(es, arg, w);
      var s0 := steps[0];
      assert s0 == ScriptStep(es[0], arg, w);
      assert steps[1..] == ScriptSteps(es[1..], arg, w);
      ScriptLoopRunsVerified(es[1..], arg, w);
      ScriptStepRuns(es[0], arg, w);
      var rest := Chain(steps[1..]);
      if s0.err.None? {
        ExecutedAppend(s0.acts, rest.acts);
        PrefixAppend(Executed(s0.acts), Executed(rest.acts), VerifiedArgvs(es[1..], arg));
      }
    }
  }

  lemma PrefixAppend<T>(a: seq<T>, b: seq<T>, c: seq<T>)
    requires b <= c
    ensures a + b <= a + c
  {
    assert forall i :: 0 <= i < |a + b| ==> (a + b)[i] == (a + c)[i];
  }

  /** If the loop returns an error, the last thing it did was run the hook that exited non-zero. */
  lemma {:induction false} ScriptLoopFailsOnExit(es: seq<FileMeta>, arg: string, w: World)
    ensures var r := Chain(ScriptSteps(es, arg, w));
      r.err.Some? ==> exists argv, st :: st != 0 && r.acts != [] && r.acts[|r.acts| - 1] == Exec(argv, st)
                                         && r.err == Some(ExitFailed(argv, st))
  {
    if es != [] {
      var steps := ScriptSteps(es, arg, w);
      var s0 := steps[0];
      assert s0 == ScriptStep(es[0], arg, w);
      assert steps[1..] == ScriptSteps(es[1..], arg, w);
      ScriptLoopFailsOnExit(es[1..], arg, w);
      ScriptStepRuns(es[0], arg, w);
      var rest := Chain(steps[1..]);
      if s0.err.None? {
        assert Chain(steps) == Effect(s0.acts + rest.acts, rest.err);
        if rest.err.Some? {
          var argv, st :| st != 0 && rest.acts != [] && rest.acts[|rest.acts| - 1] == Exec(argv, st)
                          && rest.err == Some(ExitFailed(argv, st));
          assert (s0.acts + rest.acts)[|s0.acts + rest.acts| - 1] == rest.acts[|rest.acts| - 1];
        }
      } else {
        assert Chain(steps) == s0;
        var argv := ScriptArgv(es[0].name, arg);
        assert s0.acts[|s0.acts| - 1] == Exec(argv, w.status(argv));
      }
    }
  }

  /** The hook at index k is verified and exits non-zero, and every verified hook before it exits 0. */
  predicate FirstFailingHook(es: seq<FileMeta>, arg: string, w: World, k: nat)
  {
    && k < |es|
    && Check(es[k]).None?
    && w.status(ScriptArgv(es[k].name, arg)) != 0
    && (forall i :: 0 <= i < k && Check(es[i]).None? ==> w.status(ScriptArgv(es[i].name, arg)) == 0)
  }

  /**
   * runSystemSuspendScripts returns nil exactly when the directory is read
   * without error and every verified hook exits 0; untrusted entries never
   * make it fail. It then has checked every entry, and run every verified hook
   * in listing order.
   */
  lemma RunScriptsOk(arg: string, w: World)
    ensures var l := w.listing(arg); var r := RunScripts(arg, w);
      && (r.err.None? <==>
            DirOk(l) && forall i :: 0 <= i < |l.entries| && Check(l.entries[i]).None? ==>
                                   w.status(ScriptArgv(l.entries[i].name, arg)) == 0)
      && (r.err.None? ==> r.acts == DirActs + Flatten(ScriptSteps(l.entries, arg, w)))
      && (r.err.None? ==> Executed(r.acts) == VerifiedArgvs(l.entries, arg))
  {
    var l := w.listing(arg);
    var steps := ScriptSteps(l.entries, arg, w);
    ChainOk(steps);
    ScriptLoopRunsVerified(l.entries, arg, w);
    if DirOk(l) {
      ExecutedAppend(DirActs, Chain(steps).acts);
      ExecutedNone(DirActs);
      if Chain(steps).err.Some? {
        var i :| 0 <= i < |steps| && steps[i].err.Some?;
        assert Check(l.entries[i]).None? && w.status(ScriptArgv(l.entries[i].name, arg)) != 0;
      } else {
        forall i | 0 <= i < |l.entries| && Check(l.entries[i]).None?
          ensures w.status(ScriptArgv(l.entries[i].name, arg)) == 0
        {
          assert steps[i].err.None?;
        }
      }
    }
  }

  /**
   * When a hook fails, it is the first verified hook that exits non-zero; the
   * function returns its error, and no later entry is checked or run.
   */
  lemma RunScriptsStopsAtFirstFailure(arg: string, w: World)
    ensures var l := w.listing(arg); var r := RunScripts(arg, w);
      DirOk(l) && r.err.Some? ==>
        exists k: nat :: FirstFailingHook(l.entries, arg, w, k)
          && r == Effect(DirActs + Flatten(ScriptSteps(l.entries, arg, w)[..k])
                           + [Exec(ScriptArgv(l.entries[k].name, arg), w.status(ScriptArgv(l.entries[k].name, arg)))],
                         Some(ExitFailed(ScriptArgv(l.entries[k].name, arg), w.status(ScriptArgv(l.entries[k].name, arg)))))
  {
    var l := w.listing(arg);
    var steps := ScriptSteps(l.entries, arg, w);
    if DirOk(l) && Chain(steps).err.Some? {
      ChainFirstFailure(steps);
      var k: nat :| FailsAt(steps, k);
      assert FirstFailingHook(l.entries, arg, w, k) by {
        forall i | 0 <= i < k && Check(l.entries[i]).None?
          ensures w.status(ScriptArgv(l.entries[i].name, arg)) == 0
        {
          assert steps[i].err.None?;
        }
      }
    }
  }

  lemma RunScriptsMountFree(arg: string, w: World)
    ensures MountFree(RunScripts(arg, w).acts)
  {
    var l := w.listing(arg);
    if DirOk(l) {
      var s := ScriptSteps(l.entries, arg, w);
      ChainMountFree(s);
      var a, b := DirActs, Chain(s).acts;
      assert forall i :: |a| <= i < |a + b| ==> (a + b)[i] == b[i - |a|];
    }
  }

  // ---------------------------------------------------------------------
  // systemctlServices

  /** `systemctl <command>` followed by the journald units, in their listed order. */
  function SystemctlArgv(command: string): (argv: seq<string>)
    ensures |argv| == 2 + |Services| && argv[0] == SystemctlPath && argv[1] == command
    ensures argv[2..] == Services
  {
    [SystemctlPath, command] + Services
  }

  /**
   * systemctlServices runs systemctl once, with the command followed by every
   * service, and fails exactly when that run exits non-zero.
   */
  function Systemctl(command: string, w: World): (e: Effect)
    ensures |e.acts| == 1 && e.acts[0].Exec? && e.acts[0].argv == [SystemctlPath, command] + Services
    ensures e.acts[0].status == w.status(e.acts[0].argv)
    ensures e.err.None? <==> e.acts[0].status == 0
    ensures e.err.Some? ==> e.err.value == ExitFailed(e.acts[0].argv, e.acts[0].status)
  {
    var argv := SystemctlArgv(command);
    var st := w.status(argv);
    Effect([Exec(argv, st)], if st == 0 then None else Some(ExitFailed(argv, st)))
  }

  /** The start command names the same units, in the same order, as the stop command. */
  lemma StartRestoresStopped()
    ensures SystemctlArgv("start")[2..] == SystemctlArgv("stop")[2..]
    ensures SystemctlArgv("start") != SystemctlArgv("stop")
  {
    assert SystemctlArgv("start")[1] != SystemctlArgv("stop")[1];
  }

  // ---------------------------------------------------------------------
  // main

  /**
   * Step i of main, each passed through assert; the deferred unbind is last.
   * No step aborts by itself, and only the bind and the unbind steps mount or
   * unmount anything.
   */
  function MainStep(w: World, i: nat): (e: Effect)
    requires i < 9
    ensures NoAbort(e.acts)
    ensures i != 2 && i != 8 ==> MountFree(e.acts)
  {
    match i
    case 0 => CheckPath(HandoverPath(), w)
    case 1 => CryptDevices(w)
    case 2 => ChainNoAbort(MountSteps(Bind, BindPaths, w)); BindInitramfs(w)
    case 3 => RunScriptsNoAbort("pre", w); RunScriptsMountFree("pre", w); RunScripts("pre", w)
    case 4 => Systemctl("stop", w)
    case 5 => Effect([Sync], None)
    case 6 => Systemctl("start", w)
    case 7 => RunScriptsNoAbort("post", w); RunScriptsMountFree("post", w); RunScripts("post", w)
    case _ => ChainNoAbort(MountSteps(Unbind, BindPaths, w)); UnbindInitramfs(w)
  }

  /** The nine statements of main in program order. */
  function MainSteps(w: World): (s: seq<Effect>)
    ensures |s| == 9
    ensures forall i :: 0 <= i < 9 ==> NoAbort(s[i].acts)
    ensures forall i :: 0 <= i < 9 && i != 2 && i != 8 ==> MountFree(s[i].acts)
  {
    seq(9, i requires 0 <= i < 9 => MainStep(w, i))
  }

  /** The first k effects chained, built from the back. */
  function Upto(effs: seq<Effect>, k: nat): Effect
    requires k <= |effs|
  {
    if k == 0 then Effect([], None)
    else
      var p := Upto(effs, k - 1);
      if p.err.Some? then p else Effect(p.acts + effs[k - 1].acts, effs[k - 1].err)
  }

  lemma {:induction false} UptoIsChain(effs: seq<Effect>, k: nat)
    requires k <= |effs|
    ensures Upto(effs, k) == Chain(effs[..k])
  {
    if k == 0 {
      assert effs[..0] == [];
    } else {
      UptoIsChain(effs, k - 1);
      var init := effs[..k - 1];
      if Chain(init).err.Some? {
        assert effs[..k] == init + [effs[k - 1]];
        ChainStops(init, [effs[k - 1]]);
      } else {
        ChainNext(effs, k - 1);
      }
    }
  }

  datatype Outcome = Completed | Aborted(debug: bool, err: Error)

  datatype Run = Run(acts: seq<Action>, outcome: Outcome)

  /** The run of main: the steps in order; the first error is printed and ends the run in Poweroff. */
  function MainRun(debug: bool, w: World): (r: Run)
    ensures r.acts != [] && r.acts[0] == Stat(HandoverPath(), w.stat(HandoverPath()).Some?)
  {
    var c := Chain(MainSteps(w));
    match c.err
    case None => Run(c.acts, Completed)
    case Some(e) => Run(c.acts + [Abort(debug, e)], Aborted(debug, e))
  }

  /** main aborts at step k when the steps before it succeed and it fails. */
  lemma MainRunAbortsAt(debug: bool, w: World, k: nat)
    requires k < 9 && Chain(MainSteps(w)[..k]).err.None? && MainSteps(w)[k].err.Some?
    ensures var s := MainSteps(w); var e := s[k].err.value;
      MainRun(debug, w) == Run(Chain(s[..k]).acts + s[k].acts + [Abort(debug, e)], Aborted(debug, e))
  {
    ChainEndsAt(MainSteps(w), k);
  }

  /**
   * main completes exactly when every step succeeds. It then performs, in
   * order: the check of /run/initramfs/suspend, the crypt-device query, the
   * four binds, the "pre" hooks, `systemctl stop`, sync, `systemctl start`,
   * the "post" hooks and the four unbinds.
   */
  lemma MainCompletedOrder(debug: bool, w: World)
    ensures var r := MainRun(debug, w);
      && (r.outcome == Completed <==> forall i :: 0 <= i < 9 ==> MainSteps(w)[i].err.None?)
      && (r.outcome == Completed ==> BindInitramfs(w).err.None? && UnbindInitramfs(w).err.None?)
      && (r.outcome == Completed ==>
            r.acts == [Stat("/run/initramfs/suspend", true)]
                      + ([ListCryptDevices(true)]
                      + (BindInitramfs(w).acts
                      + (RunScripts("pre", w).acts
                      + ([Exec(SystemctlArgv("stop"), 0)]
                      + ([Sync]
                      + ([Exec(SystemctlArgv("start"), 0)]
                      + (RunScripts("post", w).acts
                      + UnbindInitramfs(w).acts))))))))
  {
    var s := MainSteps(w);
    ChainOk(s);
    if Chain(s).err.None? {
      assert s[0].err.None? && s[1].err.None? && s[4].err.None? && s[6].err.None?;
      assert s[2].err.None? && s[8].err.None?;
      FlattenNine(s);
      HandoverPathValue();
    }
  }

  lemma HandoverPathValue()
    ensures HandoverPath() == "/run/initramfs/suspend"
  {
  }

  lemma FlattenNine(s: seq<Effect>)
    requires |s| == 9
    ensures Flatten(s) == s[0].acts + (s[1].acts + (s[2].acts + (s[3].acts + (s[4].acts + (s[5].acts
                          + (s[6].acts + (s[7].acts + s[8].acts)))))))
  {
    var f8 := s[8].acts;
    assert Flatten(s[8..]) == f8 by { FlattenSuffix(s, 8); assert s[9..] == []; }
    var f7 := s[7].acts + f8;
    assert Flatten(s[7..]) == f7 by { FlattenSuffix(s, 7); }
    var f6 := s[6].acts + f7;
    assert Flatten(s[6..]) == f6 by { FlattenSuffix(s, 6); }
    var f5 := s[5].acts + f6;
    assert Flatten(s[5..]) == f5 by { FlattenSuffix(s, 5); }
    var f4 := s[4].acts + f5;
    assert Flatten(s[4..]) == f4 by { FlattenSuffix(s, 4); }
    var f3 := s[3].acts + f4;
    assert Flatten(s[3..]) == f3 by { FlattenSuffix(s, 3); }
    var f2 := s[2].acts + f3;
    assert Flatten(s[2..]) == f2 by { FlattenSuffix(s, 2); }
    var f1 := s[1].acts + f2;
    assert Flatten(s[1..]) == f1 by { FlattenSuffix(s, 1); }
    assert Flatten(s) == s[0].acts + f1 by { FlattenSuffix(s, 0); assert s[0..] == s; }
  }

  /** No step of main aborts by itself: an Abort only comes from a failed assert. */
  predicate NoAbort(acts: seq<Action>)
  {
    forall i :: 0 <= i < |acts| ==> !acts[i].Abort?
  }

  lemma {:induction false} ChainNoAbort(effs: seq<Effect>)
    requires forall i :: 0 <= i < |effs| ==> NoAbort(effs[i].acts)
    ensures NoAbort(Chain(effs).acts)
  {
    if effs != [] && effs[0].err.None? {
      assert forall i :: 1 <= i < |effs| ==> effs[i] == effs[1..][i - 1];
      ChainNoAbort(effs[1..]);
      var a, b := effs[0].acts, Chain(effs[1..]).acts;
      assert forall i :: |a| <= i < |a + b| ==> (a + b)[i] == b[i - |a|];
    }
  }

  lemma RunScriptsNoAbort(arg: string, w: World)
    ensures NoAbort(RunScripts(arg, w).acts)
  {
    var l := w.listing(arg);
    if DirOk(l) {
      var s := ScriptSteps(l.entries, arg, w);
      ChainNoAbort(s);
      var a, b := DirActs, Chain(s).acts;
      assert forall i :: |a| <= i < |a + b| ==> (a + b)[i] == b[i - |a|];
    }
  }

  /**
   * A failed assert is terminal: the run ends with the one Abort, carrying the
   * debug flag and the error of the first failing step, and every step before
   * that step succeeded.
   */
  lemma AbortIsTerminal(debug: bool, w: World)
    ensures var r := MainRun(debug, w);
      r.outcome.Aborted? ==>
        && r.outcome.debug == debug
        && r.acts != [] && r.acts[|r.acts| - 1] == Abort(debug, r.outcome.err)
        && NoAbort(r.acts[..|r.acts| - 1])
        && exists k: nat :: FailsAt(MainSteps(w), k) && MainSteps(w)[k].err == Some(r.outcome.err)
  {
    var s := MainSteps(w);
    ChainNoAbort(s);
    ChainFirstFailure(s);
    var r := MainRun(debug, w);
    if r.outcome.Aborted? {
      assert r.acts[..|r.acts| - 1] == Chain(s).acts;
    }
  }

  /**
   * If /run/initramfs/suspend is missing or untrusted, main aborts before
   * anything is mounted or run.
   */
  lemma UntrustedHandoverAbortsFirst(debug: bool, w: World)
    ensures var r := MainRun(debug, w);
      match w.stat(HandoverPath())
      case None =>
        r == Run([Stat(HandoverPath(), false), Abort(debug, StatFailed(HandoverPath()))],
                 Aborted(debug, StatFailed(HandoverPath())))
      case Some(fi) =>
        Check(fi).Some? ==>
          r == Run([Stat(HandoverPath(), true), Abort(debug, Untrusted(fi.name, Check(fi).value))],
                   Aborted(debug, Untrusted(fi.name, Check(fi).value)))
  {
  }

  lemma AfterFreePrefix(m: set<string>, a: seq<Action>, rest: seq<Action>)
    requires MountFree(a)
    ensures After(m, a + rest) == After(m, rest)
  {
    AfterAppend(m, a, rest);
    AfterMountFree(m, a);
  }

  lemma AfterCompleted(m: set<string>, t: set<string>, a0: seq<Action>, a1: seq<Action>, b: seq<Action>,
                       pre: seq<Action>, x1: seq<Action>, x2: seq<Action>, x3: seq<Action>,
                       post: seq<Action>, u: seq<Action>)
    requires MountFree(a0) && MountFree(a1) && MountFree(pre) && MountFree(x1) && MountFree(x2)
    requires MountFree(x3) && MountFree(post)
    requires After(m, b) == m + t && After(m + t, u) == (m + t) - t
    ensures After(m, a0 + (a1 + (b + (pre + (x1 + (x2 + (x3 + (post + u)))))))) == m - t
  {
    var tail := pre + (x1 + (x2 + (x3 + (post + u))));
    AfterFreePrefix(m, a0, a1 + (b + tail));
    AfterFreePrefix(m, a1, b + tail);
    AfterAppend(m, b, tail);
    AfterFreePrefix(m + t, pre, x1 + (x2 + (x3 + (post + u))));
    AfterFreePrefix(m + t, x1, x2 + (x3 + (post + u)));
    AfterFreePrefix(m + t, x2, x3 + (post + u));
    AfterFreePrefix(m + t, x3, post + u);
    AfterFreePrefix(m + t, post, u);
  }

  /** When all binds and all unbinds succeed, the binds add the four targets and the unbinds remove them. */
  lemma BindThenUnbind(m: set<string>, w: World)
    requires BindInitramfs(w).err.None? && UnbindInitramfs(w).err.None?
    ensures var t := TargetSet(BindPaths);
      After(m, BindInitramfs(w).acts) == m + t && After(m + t, UnbindInitramfs(w).acts) == (m + t) - t
  {
    var t := TargetSet(BindPaths);
    assert BindPaths[..|BindPaths|] == BindPaths;
    MountLoopMounted(m, Bind, BindPaths, w);
    MountLoopMounted(m + t, Unbind, BindPaths, w);
  }

  /**
   * A run that completes leaves none of the four targets in the mounted set,
   * whatever the set held before. Mounts are a set here: a bind onto a target
   * that is already mounted does not stack a second mount.
   */
  lemma CompletedUnbindsAll(debug: bool, w: World, m: set<string>)
    ensures var r := MainRun(debug, w);
      r.outcome == Completed ==> After(m, r.acts) == m - TargetSet(BindPaths)
  {
    var r := MainRun(debug, w);
    if r.outcome == Completed {
      MainCompletedOrder(debug, w);
      CompletedTraceUnbinds(m, w, r.acts);
    }
  }

  /**
   * Started with none of the four targets mounted, a run that completes leaves
   * the mounted set exactly as it found it.
   */
  lemma CompletedRestoresMounts(debug: bool, w: World, m: set<string>)
    requires m * TargetSet(BindPaths) == {}
    ensures var r := MainRun(debug, w);
      r.outcome == Completed ==> After(m, r.acts) == m
  {
    var t := TargetSet(BindPaths);
    CompletedUnbindsAll(debug, w, m);
    assert m - t == m by {
      forall x | x in m ensures x !in t {
        assert x !in m * t;
      }
    }
  }

  /** The trace of a completed run, whatever else it holds, undoes its binds. */
  lemma CompletedTraceUnbinds(m: set<string>, w: World, acts: seq<Action>)
    requires BindInitramfs(w).err.None? && UnbindInitramfs(w).err.None?
    requires acts == [Stat("/run/initramfs/suspend", true)]
                     + ([ListCryptDevices(true)]
                     + (BindInitramfs(w).acts
                     + (RunScripts("pre", w).acts
                     + ([Exec(SystemctlArgv("stop"), 0)]
                     + ([Sync]
                     + ([Exec(SystemctlArgv("start"), 0)]
                     + (RunScripts("post", w).acts
                     + UnbindInitramfs(w).acts)))))))
    ensures After(m, acts) == m - TargetSet(BindPaths)
  {
    BindThenUnbind(m, w);
    RunScriptsMountFree("pre", w);
    RunScriptsMountFree("post", w);
    AfterCompleted(m, TargetSet(BindPaths), [Stat("/run/initramfs/suspend", true)], [ListCryptDevices(true)],
                   BindInitramfs(w).acts, RunScripts("pre", w).acts, [Exec(SystemctlArgv("stop"), 0)], [Sync],
                   [Exec(SystemctlArgv("start"), 0)], RunScripts("post", w).acts, UnbindInitramfs(w).acts);
  }

  /** The handover check and the crypt-device query, when they succeed, mount nothing. */
  lemma FirstTwoStepsMountFree(w: World)
    requires MainSteps(w)[0].err.None? && MainSteps(w)[1].err.None?
    ensures Chain(MainSteps(w)[..2]).err.None? && MountFree(Chain(MainSteps(w)[..2]).acts)
  {
    var s := MainSteps(w);
    assert s[..0] == [];
    ChainNext(s, 0);
    ChainNext(s, 1);
    assert s[0].acts == [Stat(HandoverPath(), true)] && s[1].acts == [ListCryptDevices(true)];
    assert Chain(s[..2]).acts == [Stat(HandoverPath(), true), ListCryptDevices(true)];
  }

  /**
   * When the bind step fails, main aborts with exactly the targets bound so
   * far still mounted: the code does not unbind them before the abort.
   */
  lemma BindFailureLeavesPrefixMounted(debug: bool, w: World)
    ensures var r := MainRun(debug, w); var s := MainSteps(w);
      s[0].err.None? && s[1].err.None? && s[2].err.Some? ==>
        && r.outcome == Aborted(debug, s[2].err.value)
        && After({}, r.acts) == TargetSet(BindPaths[..Succeeded(Bind, BindPaths, w)])
  {
    var s := MainSteps(w);
    if s[0].err.None? && s[1].err.None? && s[2].err.Some? {
      FirstTwoStepsMountFree(w);
      MainRunAbortsAt(debug, w, 2);
      MountLoopMounted({}, Bind, BindPaths, w);
      AfterTrailingAbort(Chain(s[..2]).acts, s[2].acts, Abort(debug, s[2].err.value));
    }
  }

  /** A mount-free prefix and a final abort leave the mounts of the middle part. */
  lemma AfterTrailingAbort(a0: seq<Action>, b: seq<Action>, x: Action)
    requires MountFree(a0) && x.Abort?
    ensures After({}, a0 + b + [x]) == After({}, b)
  {
    assert (a0 + b + [x])[..|a0 + b + [x]| - 1] == a0 + b;
    AfterFreePrefix({}, a0, b);
  }
}
