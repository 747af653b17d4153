# arch-luks-suspend, modelled in Dafny

arch-luks-suspend prepares a machine whose root filesystem is LUKS-encrypted for
suspend-to-RAM. It runs as root. The handover to the initramfs program and the
suspend itself are not in its code yet: in `main` they are comments between
stopping and restarting the services, where only a `sync` runs. What the code
does guarantee is this:

- It requires the initramfs program `/run/initramfs/suspend` to be a regular
  file, owned by root, not writable by group or world, and executable. It
  checks the file and does not run it.
- It runs a system-sleep hook from `/usr/lib/systemd/system-sleep` only when the
  hook passes the same check.
- It bind-mounts `/sys`, `/proc`, `/dev` and `/run` into `/run/initramfs` before
  the "pre" hooks, and unmounts them at the end.
- It stops the journald units, which might otherwise write to the suspended
  device, and later starts them again.
- Every error returned to `main` goes through `assert`, which prints the error
  and calls `Poweroff` with the debug flag. A hook that fails the trust check
  is only reported and skipped.

The companion go-luks-suspend reads the kernel command line. It takes the root
crypt device's mapper name from the last `cryptdevice=` parameter. It takes the
keyfile location from `cryptkey=`, which has two forms: `<label>:<path>` for a
key file on a filesystem, and `<device>:<offset>:<size>` for a key embedded in a
raw device. Without `cryptkey=` the keyfile is `/crypto_keyfile.bin`.

The project has these modules:

- `ScriptVerifier` (`script_verifier.dfy`): the trust check as a pure function
  over file metadata.
- `KernelCmdline` (`kernel_cmdline.dfy`): the command-line reader as pure
  functions, with its contract stated against an independent "last matching
  token" definition.
- `KernelCmdlineTable` (`cmdline_table.dfy`): the six cases of the reader's
  test table, each proved as a lemma.
- `SuspendEffects` (`suspend_effects.dfy`): each step of the suspend program as
  the trace of external actions it performs and the error it returns.
  - Every outcome of the outside world (stat results, mount and unmount
    success, directory listings, exit statuses) is an input, the `World`.
  - `Chain` models the Go code's early returns.
- `SuspendSession` (`suspend_session.dfy`): the program as imperative code.
  - A `Session` object appends each action to its `trace` and keeps the set of
    bound targets in `bound`.
  - Each method, loops included, is proved to produce exactly the trace and
    error of its `SuspendEffects` counterpart.
- `Wrappers` (`wrappers.dfy`): the `Option` type.

## Model

| member | source | states |
|---|---|---|
| ScriptVerifier.Check | src/archLuksSuspend/cmd/arch-luks-suspend/main.go:42-62 | Returns no error exactly when the file is regular, has a stat record, has uid 0, has none of the 022 bits and has at least one of the 0111 bits. Any reported reason is one the file breaks. No broken reason comes earlier in the order regular, stat, owner, write bits, execute bits. |
| ScriptVerifier.EveryReasonReachable | src/archLuksSuspend/cmd/arch-luks-suspend/main.go:42-62 | Each of the five failures is reported for some file, and some file passes. |
| SuspendEffects.CheckPath | src/archLuksSuspend/cmd/arch-luks-suspend/main.go:33-40 | Performs exactly one stat of the path. Succeeds exactly when the path exists and its metadata passes the check. |
| SuspendEffects.HandoverPathValue | src/archLuksSuspend/cmd/arch-luks-suspend/main.go:14 | The checked program is `/run/initramfs/suspend`. |
| SuspendSession.Session.CheckRootOwnedAndExecutablePath | src/archLuksSuspend/cmd/arch-luks-suspend/main.go:33-62 | Appends the actions of `CheckPath` to the trace, returns its error, and leaves the mounts unchanged. |
| SuspendEffects.CryptDevices | src/archLuksSuspend/cmd/arch-luks-suspend/main.go:126-127 | One crypt-device query. Fails exactly when the query fails. |
| SuspendSession.Session.GetCryptDevices | src/archLuksSuspend/cmd/arch-luks-suspend/main.go:126-127 | Appends the one crypt-device query to the trace. Returns an error exactly when the query fails. |
| SuspendEffects.RunScripts | src/archLuksSuspend/cmd/arch-luks-suspend/main.go:64-77 | A failed open returns its error after that open alone. A failed readdir returns its error after the open and the readdir, without a close. A failed close returns its error after open, readdir and close. On any of these failures nothing but directory actions is performed. When all three succeed, the trace starts with them. |
| SuspendEffects.ScriptStep | src/archLuksSuspend/cmd/arch-luks-suspend/main.go:80-88 | One entry is one action: an exec exactly when the entry passes the check, otherwise a skip carrying the check's reason. It fails exactly when it was executed and its exit status is non-zero. |
| SuspendEffects.ScriptStepRuns | src/archLuksSuspend/cmd/arch-luks-suspend/main.go:79-88 | An untrusted entry gives exactly a skip with its reason and no error. A trusted entry gives exactly the exec of `<dir>/<name> <arg> suspend` with its status, and an exit failure carrying that argv and status exactly when the status is non-zero. |
| SuspendEffects.ScriptLoopRunsVerified | src/archLuksSuspend/cmd/arch-luks-suspend/main.go:79-91 | The hooks executed are a prefix of the verified entries, in listing order. When the loop returns nil, they are all of them. |
| SuspendEffects.ScriptLoopFailsOnExit | src/archLuksSuspend/cmd/arch-luks-suspend/main.go:85-88 | An error from the loop is the exit failure of the hook executed last. |
| SuspendEffects.RunScriptsOk | src/archLuksSuspend/cmd/arch-luks-suspend/main.go:64-92 | Returns nil exactly when the directory is read without error and every verified hook exits 0. It has then executed exactly the verified hooks, in order. |
| SuspendEffects.RunScriptsStopsAtFirstFailure | src/archLuksSuspend/cmd/arch-luks-suspend/main.go:79-91 | A failure comes from the first verified hook that exits non-zero. The trace ends with that hook's exec, and no later entry is checked or run. |
| SuspendEffects.RunScriptsMountFree | src/archLuksSuspend/cmd/arch-luks-suspend/main.go:64-92 | Running the hooks mounts and unmounts nothing. |
| SuspendSession.Session.RunSystemSuspendScripts | src/archLuksSuspend/cmd/arch-luks-suspend/main.go:64-92 | Its trace and error are those of `RunScripts`. A readdir error returns without a close. The mounts are unchanged. |
| SuspendSession.Session.RunEntries | src/archLuksSuspend/cmd/arch-luks-suspend/main.go:79-91 | The loop's trace and error are the chained entry steps: it stops at the first error. |
| SuspendSession.Session.RunEntry | src/archLuksSuspend/cmd/arch-luks-suspend/main.go:80-88 | An untrusted entry is reported and skipped with no error. A trusted one is executed, and a non-zero status is returned as an error. |
| SuspendEffects.MountLoop | src/archLuksSuspend/cmd/arch-luks-suspend/main.go:94-112 | The loop operates on the leading directories whose operation succeeds and then on the first that fails. It returns that failure and attempts nothing after it. Without a failure it operates on every directory and returns nil. |
| SuspendEffects.MountLoopTargets | src/archLuksSuspend/cmd/arch-luks-suspend/main.go:94-112 | The targets operated on are a prefix of the targets of the directories, in order. Without an error they are all of them. |
| SuspendEffects.MountLoopMounted | src/archLuksSuspend/cmd/arch-luks-suspend/main.go:94-112 | After the loop, the mounted set has gained (bind) or lost (unbind) exactly the targets whose operation succeeded. |
| SuspendEffects.TargetOrderIsBindPaths | src/archLuksSuspend/cmd/arch-luks-suspend/main.go:14-18 | The targets are `/run/initramfs/sys`, `/proc`, `/dev` and `/run`, in that order. |
| SuspendEffects.BindInitramfs | src/archLuksSuspend/cmd/arch-luks-suspend/main.go:94-102 | Succeeds exactly when all four mounts succeed. The targets it attempts are a prefix of `/run/initramfs/sys`, `/proc`, `/dev`, `/run`. |
| SuspendEffects.BindInitramfsInOrder | src/archLuksSuspend/cmd/arch-luks-suspend/main.go:94-102 | A complete bind mounts `/sys`, `/proc`, `/dev`, `/run` onto their targets, in that order and nothing else. |
| SuspendEffects.UnbindInitramfs | src/archLuksSuspend/cmd/arch-luks-suspend/main.go:104-112 | Succeeds exactly when all four unmounts succeed. The targets it attempts are a prefix of the same order as binding. |
| SuspendEffects.UnbindSameOrderAsBind | src/archLuksSuspend/cmd/arch-luks-suspend/main.go:104-112 | A complete unbind unmounts the four targets in the same order as binding, not in reverse. When both loops succeed, their target sequences are equal. |
| SuspendSession.Session.BindInitramfs | src/archLuksSuspend/cmd/arch-luks-suspend/main.go:94-102 | Trace and error are those of the bind loop (`MountLoop` over the bind paths, which is `BindInitramfs`). `bound` gains exactly the targets bound before the first failure. |
| SuspendSession.Session.UnbindInitramfs | src/archLuksSuspend/cmd/arch-luks-suspend/main.go:104-112 | Trace and error are those of the unbind loop (`MountLoop` over the bind paths, which is `UnbindInitramfs`). `bound` loses exactly the targets unmounted before the first failure. |
| SuspendEffects.SystemctlArgv | src/archLuksSuspend/cmd/arch-luks-suspend/main.go:114-116 | The command is `/usr/bin/systemctl <command>` followed by the three journald units in their listed order. |
| SuspendEffects.Systemctl | src/archLuksSuspend/cmd/arch-luks-suspend/main.go:114-116 | One exec of `/usr/bin/systemctl <command>` followed by the units, with the status the environment gives it. Fails exactly when that status is non-zero, and the error names the command and the status. |
| SuspendEffects.StartRestoresStopped | src/archLuksSuspend/cmd/arch-luks-suspend/main.go:136-151 | The start command names the same units, in the same order, as the stop command. |
| SuspendSession.Session.SystemctlServices | src/archLuksSuspend/cmd/arch-luks-suspend/main.go:114-116 | Executes that command once. Returns an error exactly when it exits non-zero. |
| SuspendSession.Session.SyncDisks | src/archLuksSuspend/cmd/arch-luks-suspend/main.go:139-140 | Appends one sync to the trace and changes nothing else. |
| SuspendSession.Session.Assert | src/archLuksSuspend/cmd/arch-luks-suspend/main.go:26-31 | On an error, appends one abort carrying the debug flag and the error. On nil, appends nothing. |
| SuspendEffects.MainStep | src/archLuksSuspend/cmd/arch-luks-suspend/main.go:124-154 | Step i of main (check, crypt devices, bind, pre hooks, stop, sync, start, post hooks, unbind) never aborts by itself. Only the bind and unbind steps mount or unmount. |
| SuspendEffects.MainSteps | src/archLuksSuspend/cmd/arch-luks-suspend/main.go:118-155 | main has nine steps. None aborts, and all but the bind and unbind steps leave the mounts alone. |
| SuspendEffects.MainRun | src/archLuksSuspend/cmd/arch-luks-suspend/main.go:118-155 | Every run, completed or aborted, starts with the stat of `/run/initramfs/suspend`. |
| SuspendEffects.MainRunAbortsAt | src/archLuksSuspend/cmd/arch-luks-suspend/main.go:118-155 | When statement k is the first to fail, the run is the earlier statements' actions, statement k's actions and one abort with its error. |
| SuspendEffects.MainCompletedOrder | src/archLuksSuspend/cmd/arch-luks-suspend/main.go:118-155 | main completes exactly when all nine statements succeed. It then performs, in order: the handover check, the crypt-device query, the binds, the "pre" hooks, `systemctl stop`, sync, `systemctl start`, the "post" hooks, and the deferred unbinds. |
| SuspendEffects.AbortIsTerminal | src/archLuksSuspend/cmd/arch-luks-suspend/main.go:26-31 | An aborted run ends with its only abort. That abort carries the debug flag and the error of the first failing statement, and every statement before that one succeeded. |
| SuspendEffects.UntrustedHandoverAbortsFirst | src/archLuksSuspend/cmd/arch-luks-suspend/main.go:123-124 | A missing or untrusted `/run/initramfs/suspend` aborts the run right after the stat, before anything is mounted or run. |
| SuspendEffects.CompletedUnbindsAll | src/archLuksSuspend/cmd/arch-luks-suspend/main.go:129-131 | A completed run leaves none of the four targets in the mounted set, whatever the set held before. |
| SuspendEffects.CompletedRestoresMounts | src/archLuksSuspend/cmd/arch-luks-suspend/main.go:94-112 | Started with none of the four targets mounted, a completed run leaves the mounted set exactly as it found it. |
| SuspendEffects.BindFailureLeavesPrefixMounted | src/archLuksSuspend/cmd/arch-luks-suspend/main.go:129-131 | When the bind step fails, main aborts with exactly the targets bound so far still mounted. |
| SuspendSession.Session.Statement | src/archLuksSuspend/cmd/arch-luks-suspend/main.go:124-154 | Statement k of main performs exactly the actions of step k of the run and returns its error. |
| SuspendSession.Session.AssertedStep | src/archLuksSuspend/cmd/arch-luks-suspend/main.go:124-154 | A statement under assert either ends the run as an abort with its error, or extends the completed prefix by one statement. After the last statement it completes the run. |
| SuspendSession.Session.Suspend | src/archLuksSuspend/cmd/arch-luks-suspend/main.go:118-155 | The trace main produces, and its outcome, are exactly those of `MainRun`. |
| KernelCmdline.KeyfileEquality | src/goLuksSuspend/cmd/go-luks-suspend/crypt_device_test.go:69-71 | Two keyfiles are equal exactly when path, offset and size agree. |
| KernelCmdline.Parse | src/goLuksSuspend/cmd/go-luks-suspend/crypt_device_test.go:65-74 | An error comes with an empty name and the zero keyfile. Success comes with a non-empty name. |
| KernelCmdline.Tokens | src/goLuksSuspend/cmd/go-luks-suspend/crypt_device_test.go:24-49 | The command line splits into non-empty words without whitespace, which together hold every non-whitespace character in order. |
| KernelCmdline.Interpret | src/goLuksSuspend/cmd/go-luks-suspend/crypt_device_test.go:24-49 | A word is unrelated exactly when it has no `=` or its key is neither `cryptdevice` nor `cryptkey`. A device word has key `cryptdevice` and a non-empty name without `:`. A key word has key `cryptkey` and a path without `:`. |
| KernelCmdline.CryptkeyValue | src/goLuksSuspend/cmd/go-luks-suspend/crypt_device_test.go:40-49 | A `cryptkey=` value with fewer than two or more than three `:`-fields is rejected. The path is one of its fields. A non-zero offset or size needs three fields. |
| KernelCmdline.ScanTokens | src/goLuksSuspend/cmd/go-luks-suspend/crypt_device_test.go:24-56 | The scan rejects exactly when some word is malformed, and reports a malformed word of the input. |
| KernelCmdline.LastCryptdeviceWins | src/goLuksSuspend/cmd/go-luks-suspend/crypt_device_test.go:29-33 | With well-formed parameters and some `cryptdevice=`, the name comes from the last `cryptdevice=`. The keyfile comes from the last `cryptkey=`, or is `/crypto_keyfile.bin` when there is none. |
| KernelCmdline.NoCryptdeviceFails | src/goLuksSuspend/cmd/go-luks-suspend/crypt_device_test.go:51-56 | Without `cryptdevice=` the reading fails with an empty name and the zero keyfile. The error is "no root cryptdevice" unless a `cryptkey=` is malformed. |
| KernelCmdline.MalformedTokenFails | src/goLuksSuspend/cmd/go-luks-suspend/crypt_device_test.go:72-74 | The first malformed `cryptdevice=` or `cryptkey=` token makes the reading fail, and that token is reported. |
| KernelCmdline.UnrelatedTokensIgnored | src/goLuksSuspend/cmd/go-luks-suspend/crypt_device_test.go:24-28 | Two command lines with the same `cryptdevice=`/`cryptkey=` tokens read the same, whatever else they hold (`root=`, `rw`, `BOOT_IMAGE=`). |
| KernelCmdline.TrailingNewlineIgnored | src/goLuksSuspend/cmd/go-luks-suspend/crypt_device_test.go:34-38 | A command line reads the same with or without its final newline. |
| KernelCmdline.CryptkeyForms | src/goLuksSuspend/cmd/go-luks-suspend/crypt_device_test.go:40-49 | `<label>:<path>` gives the key file at path with offset and size zero. `<device>:<offset>:<size>` gives the embedded key with those numbers. |
| KernelCmdline.ParseFormat | src/goLuksSuspend/cmd/go-luks-suspend/crypt_device_test.go:45-49 | Every 64-bit offset or size, written in decimal, reads back as itself. |
| KernelCmdline.ScanFindsLast | src/goLuksSuspend/cmd/go-luks-suspend/crypt_device_test.go:29-33 | The left-to-right scan over well-formed tokens ends with the last device name and the last key it met. |
| KernelCmdline.TokensOfJoin | src/goLuksSuspend/cmd/go-luks-suspend/crypt_device_test.go:24-49 | Words joined by single spaces read back as those words; in particular a single word is one token. |
| KernelCmdline.TokensSplitAtSpace | src/goLuksSuspend/cmd/go-luks-suspend/crypt_device_test.go:24-49 | No token spans a whitespace character: the tokens of `a c b`, for whitespace `c`, are those of `a` followed by those of `b`. With a single word read back as itself, this makes the tokens the maximal whitespace-free runs. |
| KernelCmdline.TokensTrailingSpace | src/goLuksSuspend/cmd/go-luks-suspend/crypt_device_test.go:25 | Trailing whitespace, such as the newline of the command-line file, adds no token. |
| KernelCmdlineTable.DeviceToken | src/goLuksSuspend/cmd/go-luks-suspend/crypt_device_test.go:24-33 | `cryptdevice=<desc>:<name>` names the device `name`, even when `desc` itself holds `=`. |
| KernelCmdlineTable.DeviceTokenWithOptions | src/goLuksSuspend/cmd/go-luks-suspend/crypt_device_test.go:34-38 | A third, options field does not change the name. |
| KernelCmdlineTable.KeyFileToken | src/goLuksSuspend/cmd/go-luks-suspend/crypt_device_test.go:40-44 | `cryptkey=<label>:<path>` gives the keyfile at path. |
| KernelCmdlineTable.EmbeddedKeyToken | src/goLuksSuspend/cmd/go-luks-suspend/crypt_device_test.go:45-49 | `cryptkey=<dev>:<offset>:<size>` gives the embedded key at that offset and size. |
| KernelCmdlineTable.SingleCryptdevice | src/goLuksSuspend/cmd/go-luks-suspend/crypt_device_test.go:24-28 | First row: name `cryptroot`, default keyfile, no error. |
| KernelCmdlineTable.LastOfTwoCryptdevices | src/goLuksSuspend/cmd/go-luks-suspend/crypt_device_test.go:29-33 | Second row: of two devices the last, `cryptroot2`, wins. |
| KernelCmdlineTable.CryptdeviceWithOptions | src/goLuksSuspend/cmd/go-luks-suspend/crypt_device_test.go:34-38 | Third row: name `cryptolvm` despite the options field and the missing newline. |
| KernelCmdlineTable.CryptkeyOnFilesystem | src/goLuksSuspend/cmd/go-luks-suspend/crypt_device_test.go:40-44 | Fourth row: name `root`, keyfile `/var/rootfs.key`. |
| KernelCmdlineTable.CryptkeyEmbedded | src/goLuksSuspend/cmd/go-luks-suspend/crypt_device_test.go:45-49 | Fifth row: name `root`, key at `/dev/sdb`, offset 512, size 1024. |
| KernelCmdlineTable.NoCryptdevice | src/goLuksSuspend/cmd/go-luks-suspend/crypt_device_test.go:51-56 | Sixth row: empty name, zero keyfile, "no root cryptdevice" error. |

## Left out

- The command-line parser's own source file (`crypt_device.go`, with
  `getLUKSParamsFromKernelCmdline`) is not part of this model. Its behaviour is
  reconstructed from the test table and the parameter formats above. Where
  neither decides, the model picks one behaviour:
  - a `cryptdevice=` value with fewer than two `:`-fields, or with an empty
    name, is malformed;
  - a `cryptkey=` value with a field count other than two or three, or with
    non-decimal or over-64-bit numbers, is malformed;
  - the first malformed token ends the reading with an error;
  - whitespace between parameters is the six ASCII characters space, tab,
    newline, carriage return, vertical tab and form feed. Go's field splitting
    also splits on U+0085 and U+00A0, which the model treats as word
    characters.
- The test harness's writing of the command-line file and its swap of the file
  name are I/O around the reader and are left out. The reader is a function of
  the command-line text.
- The system calls and process runs are not executed. `os.Stat`, `os.Open`,
  `Readdir`, `Close`, `syscall.Mount`, `syscall.Unmount`, `syscall.Sync` and
  `exec.Command(...).Run()` are actions whose outcomes come from the `World`
  input. Each outcome is a function of what is attempted, which assumes each
  operation happens at most once per run.
- SuspendEffects.CheckPath: the metadata of a stat, its name included, comes
  from the `World`. The model does not tie that name to the last element of
  the path, as `os.Stat` does, so the name in an `Untrusted` error is whatever
  the world gives.
- An exec that cannot start is folded into a non-zero exit status.
- The diagnostics printed to stdout and stderr are represented only by the
  `Skip` and `Abort` actions, not by their text.
- `archLuksSuspend.Poweroff` is not part of this model. A failed `assert` is a
  terminal `Abort(debug, err)` action, and nothing after it is modelled.
- SuspendEffects.AbortIsTerminal: makes no claim about whether `Poweroff`
  returns, or whether the deferred unbind runs after an abort.
- SuspendEffects.CompletedUnbindsAll: the mounted set is a set, so stacked
  bind mounts are not modelled. Binding onto a target that is already mounted
  stacks a second mount, and one unmount removes only the top one. A mount that
  existed before the run therefore survives it, whereas the model drops it.
  `CompletedRestoresMounts` states the case the set model captures exactly: no
  target mounted beforehand.
- SuspendEffects.BindFailureLeavesPrefixMounted: states what is mounted at the
  abort only, not after a deferred unbind that might follow it.
- `archLuksSuspend.GetCryptDevices` is not part of this model. Only its success
  or failure is an input. The list it returns is unused by `main`, so it is not
  modelled.
- The commented-out steps of `main` (write barriers, the chroot handover, the
  resume of other devices, restoring mount options) have no code and are not
  modelled.
- The `-debug` flag and the global `debugmode` are replaced by a `debug`
  parameter.
- The race between checking a hook and executing it is not modelled, and
  neither is the order in which the directory lists its entries. The listing is
  an input sequence.
- `filepath.Join` is modelled as joining with a single `/`, without cleaning
  the path. Cleaning makes no difference for the fixed absolute paths used
  here, and hook names from a directory listing hold no `/`.
- One might expect unbinding to reverse the binding order, and every bound path
  to be unbound even after a partial bind failure. The code unbinds in the same
  order as binding (`UnbindSameOrderAsBind`). After a bind failure it
  aborts with the bound prefix still mounted (`BindFailureLeavesPrefixMounted`).
  The model follows the code.
- SuspendSession.Session.Suspend: runs the nine statements through one
  `Statement` dispatcher indexed by a step counter. It is not nine separate
  call sites, but it performs the same calls in the same order.
