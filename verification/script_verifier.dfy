/**
 * The trust check applied to the initramfs handover program and to every
 * system-sleep hook before it is run as root: the file must be a regular
 * file, its stat record must be readable, it must be owned by uid 0, carry no
 * group- or world-write bit and at least one execute bit.
 */
module ScriptVerifier {
  import opened Wrappers

  /** The file metadata the check reads: what `os.FileInfo` exposes. */
  datatype FileMeta = FileMeta(
    name: string,     // base name, used in the diagnostics
    isRegular: bool,  // Mode().IsRegular()
    hasStat: bool,    // Sys() yields a *syscall.Stat_t
    uid: nat,         // stat.Uid
    mode: bv32)       // Mode(), permission bits in the low nine bits

  /** Group- and world-write bits, octal 022. */
  const GroupWorldWrite: bv32 := 0x12
  /** Owner-, group- and world-execute bits, octal 111. */
  const AnyExecute: bv32 := 0x49

  /** One distinct failure per invariant the check enforces. */
  datatype Reason = NotRegular | NoStat | NotRootOwned | GroupWorldWritable | NotExecutable

  /** The order in which the check looks at the invariants (1 is looked at first). */
  function Priority(r: Reason): nat
  {
    match r
    case NotRegular => 1
    case NoStat => 2
    case NotRootOwned => 3
    case GroupWorldWritable => 4
    case NotExecutable => 5
  }

  /** Whether `fi` breaks the invariant behind `r`, independently of every other invariant. */
  predicate Violates(fi: FileMeta, r: Reason)
  {
    match r
    case NotRegular => !fi.isRegular
    case NoStat => !fi.hasStat
    case NotRootOwned => fi.uid != 0
    case GroupWorldWritable => fi.mode & GroupWorldWrite != 0
    case NotExecutable => fi.mode & AnyExecute == 0
  }

  /**
   * checkRootOwnedAndExecutable: None when the file may be run, otherwise the
   * first broken invariant in the fixed order regular, stat, owner, write
   * bits, execute bits.
   */
  function Check(fi: FileMeta): (r: Option<Reason>)
    ensures r.None? <==>
              fi.isRegular && fi.hasStat && fi.uid == 0
              && fi.mode & GroupWorldWrite == 0 && fi.mode & AnyExecute != 0
    ensures r.None? ==> forall q: Reason :: !Violates(fi, q)
    ensures r.Some? ==> Violates(fi, r.value)
    ensures r.Some? ==> forall q: Reason :: Violates(fi, q) ==> Priority(r.value) <= Priority(q)
  {
    if !fi.isRegular then Some(NotRegular)
    else if !fi.hasStat then Some(NoStat)
    else if fi.uid != 0 then Some(NotRootOwned)
    else if fi.mode & GroupWorldWrite != 0 then Some(GroupWorldWritable)
    else if fi.mode & AnyExecute == 0 then Some(NotExecutable)
    else None
  }

  /**
   * Every failure reason is reported for some file, so the five diagnostics
   * are all distinguishable outcomes of the check; a root-owned 0755 file passes.
   */
  lemma EveryReasonReachable()
    ensures forall r: Reason :: exists fi: FileMeta :: Check(fi) == Some(r)
    ensures exists fi: FileMeta :: Check(fi) == None
  {
    var symlink := FileMeta("link", false, true, 0, 0x1ED);       // 0755, not regular
    var unstatable := FileMeta("unstatable", true, false, 0, 0x1ED);      // no stat_t
    var foreign := FileMeta("foreign", true, true, 1000, 0x1ED);  // owned by uid 1000
    var shared := FileMeta("shared", true, true, 0, 0x1FD);       // 0775
    var plain := FileMeta("plain", true, true, 0, 0x1A4);         // 0644
    var good := FileMeta("good", true, true, 0, 0x1ED);           // 0755
    assert Check(symlink) == Some(NotRegular);
    assert Check(unstatable) == Some(NoStat);
    assert Check(foreign) == Some(NotRootOwned);
    assert Check(shared) == Some(GroupWorldWritable);
    assert Check(plain) == Some(NotExecutable);
    assert Check(good) == None;
    forall r: Reason ensures exists fi: FileMeta :: Check(fi) == Some(r) {
      match r
      case NotRegular => assert Check(symlink) == Some(r);
      case NoStat => assert Check(unstatable) == Some(r);
      case NotRootOwned => assert Check(foreign) == Some(r);
      case GroupWorldWritable => assert Check(shared) == Some(r);
      case NotExecutable => assert Check(plain) == Some(r);
    }
  }
}
