/**
 * lock.c: UUCP-style (HDB) device locking. A device is locked by creating
 * /var/lock/LCK..<basename> holding the owner's process id; a lock file whose
 * owner no longer runs is stale and is removed once before creating a new one.
 *
 * The file system is a map from path to contents; the processes that
 * `kill(pid, 0)` reports as running are the set `live`. Failures of open,
 * read, unlink and the exclusive create are inputs (LockFaults).
 */
module Lock {
  import opened Wrappers
  import opened Decimal
  import opened LockDefs

  /**
   * LF_PATH "/" LF_PREFIX: everything in a lock path before the basename,
   * spelled out (LockDirPrefixSpelledOut ties it to the two macros).
   */
  const LockDirPrefix: string := "/var/lock/LCK.."
  /** lckf[128] holds at most 127 characters before its terminating NUL. */
  const LockPathMax := 127
  /** Size of lckpidstr[], the buffer the recorded pid is read into. */
  const PidStrSize := 20
  /** Largest value of a 32-bit pid_t. */
  const PidMax := 0x7FFF_FFFF

  /** A process id as getpid() returns it. */
  type Pid = p: int | 0 < p <= PidMax witness 1

  type Files = map<string, string>

  /** strrchr(s, '/'): the index of the last '/' in s, if any. */
  function LastSlash(s: string): (r: Option<nat>)
    ensures r.Some? ==> r.value < |s| && s[r.value] == '/'
    ensures r.Some? ==> forall j :: r.value < j < |s| ==> s[j] != '/'
    ensures r.None? ==> forall j :: 0 <= j < |s| ==> s[j] != '/'
  {
    if s == [] then None
    else if s[|s| - 1] == '/' then Some(|s| - 1)
    else LastSlash(s[..|s| - 1])
  }

  /** The text after the last '/' of the device, or all of it without a '/'. */
  function Basename(device: string): (b: string)
    ensures '/' !in b
    ensures |b| <= |device| && device[|device| - |b|..] == b
    ensures |b| < |device| ==> device[|device| - |b| - 1] == '/'
  {
    match LastSlash(device)
    case Some(i) => device[i + 1..]
    case None => device
  }

  /**
   * The lock file of a device, as snprintf(lckf, 128, "%s/%s%s", ...) builds
   * it: the lock directory, the prefix and the basename, cut to 127 characters.
   * lock_device and unlock_device both use this one function.
   */
  function LockPath(device: string): (p: string)
    ensures |p| <= LockPathMax
  {
    var full := LockDirPrefix + Basename(device);
    full[..Min(|full|, LockPathMax)]
  }

  /**
   * Every lock path starts with "/var/lock/LCK.."; it is that prefix and the
   * basename, exactly so when the basename fits in the 127 characters.
   */
  lemma LockPathShape(device: string)
    ensures |LockPath(device)| >= |LockDirPrefix|
    ensures LockPath(device)[..|LockDirPrefix|] == LockDirPrefix
    ensures LockPath(device) <= LockDirPrefix + Basename(device)
    ensures |Basename(device)| <= LockPathMax - |LockDirPrefix| ==> LockPath(device) == LockDirPrefix + Basename(device)
    ensures |LockPath(device)| == Min(|LockDirPrefix + Basename(device)|, LockPathMax)
  {
    TruncatedKeepsPrefix(LockDirPrefix, Basename(device), LockPathMax);
  }

  /** Cutting p + b to n characters, with p no longer than n, keeps p whole. */
  lemma TruncatedKeepsPrefix(p: string, b: string, n: nat)
    requires |p| <= n
    ensures var t := (p + b)[..Min(|p + b|, n)];
      && |t| == Min(|p + b|, n)
      && |t| >= |p| && t[..|p|] == p && t <= p + b
      && (|p + b| <= n ==> t == p + b)
  {
    var full := p + b;
    var t := full[..Min(|full|, n)];
    assert t[..|p|] == full[..|p|] == p;
  }

  /** The prefix is the lock directory, a '/', and the UUCP prefix: 15 characters. */
  lemma LockDirPrefixSpelledOut()
    ensures LockDirPrefix == LfPath + "/" + LfPrefix
    ensures |LockDirPrefix| == 15
  {
  }

  /** The HDB record snprintf(.., "%10d\n", pid) writes: the pid right-aligned in 10 columns. */
  function FormatPid(pid: Pid): (s: string)
    ensures |s| == 11 && s[10] == '\n'
    // the digits of pid, right-aligned behind spaces in the first 10 columns
    ensures var k := 10 - |Digits(pid)|;
      && 0 <= k
      && (forall i :: 0 <= i < k ==> s[i] == ' ')
      && s[k..10] == Digits(pid)
  {
    assert Pow10(10) == 10_000_000_000;
    DigitsLength(pid, 10);
    PadLeft(Digits(pid), 10) + "\n"
  }

  /** Parsing a record back with "%d" gives the pid it was written from. */
  lemma FormatPidRoundTrip(pid: Pid)
    ensures ScanInt(FormatPid(pid)) == Some(pid)
  {
    var ds := Digits(pid);
    assert Pow10(10) == 10_000_000_000;
    DigitsLength(pid, 10);
    assert PadLeft(ds, 10) == Spaces(10 - |ds|) + ds;
    ScanPaddedDigits(10 - |ds|, pid, "\n");
  }

  /**
   * What the environment does to one lock_device call: which system calls
   * fail, and the value the uninitialised `lckpid` holds when "%d" matches
   * nothing in the lock file.
   */
  datatype LockFaults = LockFaults(
    openFails: bool,
    readFails: bool,
    unlinkFails: bool,
    createFails: bool,
    unparsedPid: int)

  /** A status lock_device or unlock_device returns, with the resulting files. */
  datatype LockOutcome = LockOutcome(status: int, files: Files)

  /** nb: what read(lfh, lckpidstr, min(20, st_size)) returns on a regular file. */
  function BytesRead(content: string, f: LockFaults): (nb: int)
    ensures f.readFails ==> nb == -1
    ensures !f.readFails ==> 0 <= nb <= PidStrSize && nb <= |content|
    // a short file is read whole; a longer one, its first 20 bytes
    ensures !f.readFails && |content| <= PidStrSize ==> nb == |content|
    ensures !f.readFails && |content| > PidStrSize ==> nb == PidStrSize
  {
    if f.readFails then -1 else Min(PidStrSize, |content|)
  }

  /** The pid lock_device compares against the running processes. */
  function RecordedPid(text: string, f: LockFaults): int {
    ScanInt(text).GetOr(f.unparsedPid)
  }

  /** The existing lock file at `path` can be opened and yields at least one byte. */
  predicate Readable(files: Files, path: string, f: LockFaults) {
    path in files && !f.openFails && BytesRead(files[path], f) > 0
  }

  function Owner(files: Files, path: string, f: LockFaults): int
    requires Readable(files, path, f)
  {
    RecordedPid(files[path][..BytesRead(files[path], f)], f)
  }

  /** The owner lock_device reads back from a lock file written by `pid` is `pid`. */
  lemma OwnerOfRecord(files: Files, path: string, pid: Pid, f: LockFaults)
    requires path in files && files[path] == FormatPid(pid)
    requires !f.openFails && !f.readFails
    ensures Readable(files, path, f) && Owner(files, path, f) == pid
  {
    var record := FormatPid(pid);
    assert record[..BytesRead(record, f)] == record;
    FormatPidRoundTrip(pid);
  }

  /** The lock file at `path` names a running process. */
  predicate HeldByLive(files: Files, live: set<int>, path: string, f: LockFaults) {
    Readable(files, path, f) && Owner(files, path, f) in live
  }

  /** The lock file at `path` is readable and names no running process. */
  predicate Stale(files: Files, live: set<int>, path: string, f: LockFaults) {
    Readable(files, path, f) && Owner(files, path, f) !in live
  }

  /**
   * lockpidstr[nb] = 0 stays inside the 20-byte buffer: the bytes read from
   * an existing lock file number fewer than 20.
   */
  predicate ReadFits(files: Files, path: string, f: LockFaults) {
    path in files && !f.openFails ==> BytesRead(files[path], f) < PidStrSize
  }

  /** open(path, O_WRONLY | O_CREAT | O_EXCL) followed by the write of the record. */
  function CreateExclusive(files: Files, path: string, pid: Pid, fails: bool): (o: LockOutcome)
    // an existing file is never overwritten
    ensures path in files ==> o == LockOutcome(-1, files)
    ensures o.status == 0 <==> !fails && path !in files
    ensures o.status == 0 ==> o.files == files[path := FormatPid(pid)]
    ensures o.status != 0 ==> o == LockOutcome(-1, files)
  {
    if fails || path in files then LockOutcome(-1, files)
    else LockOutcome(0, files[path := FormatPid(pid)])
  }

  /** The effect of lock_device by process `pid` on the lock file `path`. */
  function Acquire(files: Files, live: set<int>, path: string, pid: Pid, f: LockFaults): (o: LockOutcome)
    ensures o.status == 0 || o.status == -1
    // on success the lock file names the caller and no other file changed
    ensures o.status == 0 ==> o.files == files[path := FormatPid(pid)]
    // a failure changes nothing, except that the old lock file may already be gone
    ensures o.status == -1 ==> o.files == files || o.files == files - {path}
    // without a lock file, the exclusive create decides
    ensures path !in files ==> (o.status == 0 <==> !f.createFails)
  {
    if path !in files then CreateExclusive(files, path, pid, f.createFails)
    else if !Readable(files, path, f) then LockOutcome(-1, files)
    else if Owner(files, path, f) in live then LockOutcome(-1, files)
    else if f.unlinkFails then LockOutcome(-1, files)
    else
      assert (files - {path})[path := FormatPid(pid)] == files[path := FormatPid(pid)];
      CreateExclusive(files - {path}, path, pid, f.createFails)
  }

  /**
   * How lock_device decides on an existing lock file: only a stale one is
   * ever replaced or removed; a running owner, an unreadable file or a
   * failed unlink leaves everything as it was.
   */
  lemma AcquireDecides(files: Files, live: set<int>, path: string, pid: Pid, f: LockFaults)
    ensures var o := Acquire(files, live, path, pid, f);
      && (o.status == 0 ==> path !in files || Stale(files, live, path, f))
      && (o.files == files - {path} && path in files ==> Stale(files, live, path, f))
      && (HeldByLive(files, live, path, f) ==> o == LockOutcome(-1, files))
      && (path in files && !Readable(files, path, f) ==> o == LockOutcome(-1, files))
      && (Stale(files, live, path, f) && f.unlinkFails ==> o == LockOutcome(-1, files))
      // a stale file that unlinks is followed by exactly one exclusive create
      && (Stale(files, live, path, f) && !f.unlinkFails ==>
            o == CreateExclusive(files - {path}, path, pid, f.createFails))
  {
  }

  /** The effect of unlock_device on the lock file `path`. */
  function Release(files: Files, path: string, unlinkFails: bool): (o: LockOutcome)
    ensures o.status == 0 <==> path in files && !unlinkFails
    ensures o.status == 0 ==> o.files == files - {path}
    ensures o.status != 0 ==> o == LockOutcome(-1, files)
  {
    if path in files && !unlinkFails then LockOutcome(0, files - {path})
    else LockOutcome(-1, files)
  }

  /**
   * read(lfh, lckpidstr, min(20, st_size)) into the 20-byte buffer, then
   * lckpidstr[nb] = 0: returns nb and the text sscanf then sees.
   */
  method ReadLockFile(content: string, f: LockFaults) returns (nb: int, text: string)
    requires !f.readFails ==> Min(PidStrSize, |content|) < PidStrSize
    ensures nb == BytesRead(content, f)
    ensures nb > 0 ==> text == content[..nb]
  {
    nb := BytesRead(content, f);
    text := [];
    if nb > 0 {
      var lckpidstr := new char[PidStrSize];
      forall i | 0 <= i < nb {
        lckpidstr[i] := content[i];
      }
      lckpidstr[nb] := '\0';
      text := lckpidstr[..nb];
    }
  }

  /** The lock directory and the processes running beside this one. */
  class LockStore {
    var files: Files
    var live: set<int>

    constructor (files: Files, live: set<int>)
      ensures this.files == files && this.live == live
    {
      this.files := files;
      this.live := live;
    }

    /** lock_device: 0 when the lock file now names `pid`, -1 otherwise. */
    method LockDevice(device: string, pid: Pid, f: LockFaults) returns (r: int)
      requires ReadFits(files, LockPath(device), f)
      modifies this`files
      ensures r == Acquire(old(files), live, LockPath(device), pid, f).status
      ensures files == Acquire(old(files), live, LockPath(device), pid, f).files
    {
      var lckf := LockPath(device);
      r := LockFile(lckf, pid, f);
    }

    /** The body of lock_device once the lock file's name `lckf` is known. */
    method LockFile(lckf: string, pid: Pid, f: LockFaults) returns (r: int)
      requires ReadFits(files, lckf, f)
      modifies this`files
      ensures r == Acquire(old(files), live, lckf, pid, f).status
      ensures files == Acquire(old(files), live, lckf, pid, f).files
    {
      if lckf in files {
        // stat() found a lock file: learn whether it is stale
        if f.openFails {
          return -1;
        }
        var nb, lckpidstr := ReadLockFile(files[lckf], f);
        if nb <= 0 {
          return -1;
        }
        var lckpid := RecordedPid(lckpidstr, f);
        if lckpid in live {
          return -1;
        }
        if f.unlinkFails {
          return -1;
        }
        files := files - {lckf};
      }
      if f.createFails || lckf in files {
        return -1;
      }
      files := files[lckf := FormatPid(pid)];
      r := 0;
    }

    /** unlock_device: 0 when the lock file was removed, -1 otherwise. */
    method UnlockDevice(device: string, unlinkFails: bool) returns (r: int)
      modifies this`files
      ensures r == Release(old(files), LockPath(device), unlinkFails).status
      ensures files == Release(old(files), LockPath(device), unlinkFails).files
    {
      var lckf := LockPath(device);
      if lckf !in files || unlinkFails {
        return -1;
      }
      files := files - {lckf};
      r := 0;
    }
  }

  /**
   * Mutual exclusion: once a running process holds the lock, every later
   * lock_device on the same lock file fails and leaves the file alone.
   */
  lemma LiveLockExcludes(files: Files, live: set<int>, path: string, pid: Pid, f: LockFaults,
                         other: Pid, g: LockFaults)
    requires Acquire(files, live, path, pid, f).status == 0
    requires pid in live
    ensures var held := Acquire(files, live, path, pid, f).files;
            Acquire(held, live, path, other, g) == LockOutcome(-1, held)
  {
    var held := Acquire(files, live, path, pid, f).files;
    if Readable(held, path, g) {
      OwnerOfRecord(held, path, pid, g);
      assert HeldByLive(held, live, path, g);
    }
  }

  /**
   * Stale reclamation: a readable lock file naming a process that no longer
   * runs is unlinked and replaced by one naming the caller; when the create
   * then fails, the old file is gone and nothing replaces it.
   */
  lemma StaleLockReclaimed(files: Files, live: set<int>, path: string, pid: Pid, f: LockFaults)
    requires Stale(files, live, path, f) && !f.unlinkFails
    ensures var o := Acquire(files, live, path, pid, f);
      && (!f.createFails ==> o == LockOutcome(0, files[path := FormatPid(pid)]))
      && (f.createFails ==> o == LockOutcome(-1, files - {path}))
  {
    assert path !in files - {path};
  }

  /** The record an earlier lock_device wrote for a process that has since died is reclaimed. */
  lemma DeadOwnerReclaimed(files: Files, live: set<int>, path: string, pid: Pid, gone: Pid, f: LockFaults)
    requires path in files && files[path] == FormatPid(gone)
    requires gone !in live
    requires !f.openFails && !f.readFails && !f.unlinkFails && !f.createFails
    ensures Acquire(files, live, path, pid, f) == LockOutcome(0, files[path := FormatPid(pid)])
  {
    OwnerOfRecord(files, path, gone, f);
    StaleLockReclaimed(files, live, path, pid, f);
  }

  /** Lock then unlock leaves no lock file, and another process can lock again. */
  lemma LockUnlockRoundTrip(files: Files, live: set<int>, path: string, pid: Pid, f: LockFaults, other: Pid)
    requires Acquire(files, live, path, pid, f).status == 0
    ensures var freed := Release(Acquire(files, live, path, pid, f).files, path, false);
            && freed == LockOutcome(0, files - {path})
            && Acquire(freed.files, live, path, other, LockFaults(false, false, false, false, 0)).status == 0
  {
  }
}
