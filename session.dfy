/**
 * scsterm.c, main: choosing the device (explicit "/dev/..." argument or the
 * SCS devices found on USB), locking it, opening and configuring it, the
 * select loop that relays bytes between the terminal and the modem, and the
 * exit paths with their unlock.
 *
 * What the environment contributes is an input: the text typed at the
 * "Enter a number" prompt, the fate of open() and of the two ioctls, and
 * the sequence of select() wakeups up to the moment `run` is cleared.
 */
module Session {
  import opened Wrappers
  import opened Decimal
  import opened Lock
  import opened Discovery

  const ExitSuccess := 0
  const ExitFailure := 1
  /** Size of `serdev`, the terminating NUL included. */
  const SerdevSize := 256
  /** Size of `buf`: every read() asks for at most this many bytes. */
  const ChunkMax := 256

  /** The device main goes on with, and its baud rate, or none. */
  datatype Choice = NoSession | Use(dev: string, baud: int)

  /** argc == 3 and argv[1] begins with "/dev/": the device is named on the command line. */
  predicate ExplicitDevice(args: seq<string>) {
    |args| == 3 && |args[1]| >= |DevDir| && args[1][..|DevDir|] == DevDir
  }

  /** strtol(s, NULL, 10), with 0 when no digits are found. */
  function Strtol(s: string): (v: int)
    ensures ScanInt(s).Some? ==> v == ScanInt(s).value
    ensures ScanInt(s).None? ==> v == 0
  {
    ScanInt(s).GetOr(0)
  }

  /**
   * strtol reads leading white space, an optional sign and the digits after
   * it, up to the first non-digit: "115200", " +9600" and "\t-42x" give
   * 115200, 9600 and -42.
   */
  lemma StrtolReads(ws: string, sign: string, ds: string, rest: string)
    requires AllSpaces(ws) && IsSign(sign)
    requires ds != [] && AllDigits(ds)
    requires rest == [] || !IsDigit(rest[0])
    ensures var v: int := Value(ds);
      Strtol(ws + sign + ds + rest) == if sign == "-" then -v else v
  {
    ScanNumber(ws, sign, ds, rest);
  }

  /** Without digits after the white space and the optional sign, strtol gives 0. */
  lemma StrtolNoNumber(ws: string, sign: string, rest: string)
    requires AllSpaces(ws) && IsSign(sign)
    requires rest == [] || !IsDigit(rest[0])
    requires sign == "" && rest != [] ==> !IsSpace(rest[0]) && rest[0] != '+' && rest[0] != '-'
    ensures Strtol(ws + sign + rest) == 0
  {
    ScanNoDigits(ws, sign, rest);
  }

  /**
   * The prompt after find_devices: the only device found, or the one whose
   * 1-based number was typed, at the nominal baud of its model.
   */
  function Pick(found: seq<ScsDevice>, typed: string): (c: Choice)
    requires forall d :: d in found ==> d.model < ModemCount
    ensures found == [] ==> c == NoSession
    ensures |found| == 1 ==> c == Use(found[0].tty, Modems[found[0].model].baud)
    // with several devices, exactly a number from 1 to n selects one
    ensures |found| > 1 ==> (c.Use? <==> 1 <= Strtol(typed) <= |found|)
    ensures |found| > 1 && c.Use? ==>
              var k := Strtol(typed) - 1;
              c == Use(found[k].tty, Modems[found[k].model].baud)
  {
    if |found| == 0 then NoSession
    else
      var num := if |found| > 1 then Strtol(typed) else 1;
      if num < 1 || num > |found| then NoSession
      else Use(found[num - 1].tty, Modems[found[num - 1].model].baud)
  }

  /**
   * main's choice: the explicit device with the baud of argv[2]; otherwise
   * one of the devices find_devices reports, picked at the prompt.
   */
  function Chosen(args: seq<string>, scan: UsbScan, sysfs: SysfsTree, typed: string): (c: Choice)
    requires !ExplicitDevice(args) ==> ScanResolvable(scan, sysfs)
    ensures ExplicitDevice(args) ==> c == Use(args[1], Strtol(args[2]))
    ensures !ExplicitDevice(args) && c.Use? ==>
              exists d :: d in Discover(scan, sysfs) && c == Use(d.tty, Modems[d.model].baud)
  {
    if ExplicitDevice(args) then Use(args[1], Strtol(args[2]))
    else Pick(Discover(scan, sysfs), typed)
  }

  /**
   * "scsterm /dev/ttyS0 9600" uses /dev/ttyS0 at 9600 baud without looking
   * for USB devices; a name outside /dev/ or a missing baud argument does not.
   */
  lemma ExplicitArgumentsUsed(scan: UsbScan, sysfs: SysfsTree, typed: string)
    ensures Chosen(["scsterm", "/dev/ttyS0", "9600"], scan, sysfs, typed) == Use("/dev/ttyS0", 9600)
    ensures !ExplicitDevice(["scsterm", "ttyUSB0", "9600"])
    ensures !ExplicitDevice(["scsterm", "/dev/ttyS0"])
  {
    assert ExplicitDevice(["scsterm", "/dev/ttyS0", "9600"]);
    assert "9600" == "" + "" + "9600" + "";
    StrtolReads("", "", "9600", "");
    assert "9600"[..3] == "960" && "960"[..2] == "96" && "96"[..1] == "9";
    assert Value("9600") == 9600;
    assert "ttyUSB0"[..5][0] != DevDir[0];
  }

  /**
   * The last byte of a chunk read from the terminal becomes a carriage
   * return, whatever it was.
   */
  function CrTerminated(chunk: string): (r: string)
    requires |chunk| >= 1
    ensures |r| == |chunk|
    ensures r[|r| - 1] == '\r'
    ensures r[..|r| - 1] == chunk[..|chunk| - 1]
  {
    chunk[|chunk| - 1 := '\r']
  }

  /** What one select() returns: failure, or which descriptors have data, with that data. */
  datatype Wakeup =
    | SelectFailed
    | Ready(fromDevice: Option<string>, fromInput: Option<string>)

  /** The serial line as main meets it. */
  datatype SerialIo = SerialIo(
    openFails: bool,
    getAttrFails: bool,
    setAttrFails: bool,
    wakeups: seq<Wakeup>)

  /** The calls main makes that a caller of scsterm can observe. */
  datatype Event =
    | LockCall(dev: string, status: int)
    | OpenCall(dev: string, ok: bool)
    | GetAttr(ok: bool)
    | SetAttr(baud: int, ok: bool)
    | ToDevice(data: string)
    | ToTerminal(data: string)
    | CloseCall
    | UnlockCall(dev: string, status: int)

  /**
   * Every read() up to the first failed select fits `buf`, and each read
   * from the terminal returns at least one byte (buf[rd - 1] is written).
   */
  predicate ChunksOk(ws: seq<Wakeup>) {
    if ws == [] || ws[0].SelectFailed? then true
    else
      && (ws[0].fromDevice.Some? ==> |ws[0].fromDevice.value| <= ChunkMax)
      && (ws[0].fromInput.Some? ==> 1 <= |ws[0].fromInput.value| <= ChunkMax)
      && ChunksOk(ws[1..])
  }

  /** One turn of the loop: the modem's bytes to stdout, then the terminal's to the modem. */
  function Relay(w: Wakeup): seq<Event>
    requires w.Ready?
    requires w.fromInput.Some? ==> |w.fromInput.value| >= 1
  {
    (if w.fromDevice.Some? then [ToTerminal(w.fromDevice.value)] else [])
    + (if w.fromInput.Some? then [ToDevice(CrTerminated(w.fromInput.value))] else [])
  }

  /** One write per ready descriptor: the modem's bytes first and unchanged, then the terminal's. */
  lemma RelayWrites(w: Wakeup)
    requires w.Ready?
    requires w.fromInput.Some? ==> |w.fromInput.value| >= 1
    ensures var step := Relay(w);
      && |step| == (if w.fromDevice.Some? then 1 else 0) + (if w.fromInput.Some? then 1 else 0)
      && (w.fromDevice.Some? ==> step[0] == ToTerminal(w.fromDevice.value))
      && (w.fromInput.Some? ==> step[|step| - 1] == ToDevice(CrTerminated(w.fromInput.value)))
  {
  }

  /** What the select loop writes, until select fails or the wakeups run out. */
  function Bridge(ws: seq<Wakeup>): seq<Event>
    requires ChunksOk(ws)
  {
    if ws == [] || ws[0].SelectFailed? then []
    else Relay(ws[0]) + Bridge(ws[1..])
  }

  /**
   * The loop only writes: to stdout, and to the modem, where every chunk
   * ends in a carriage return; at most two writes per wakeup.
   */
  lemma {:induction false} BridgeWrites(ws: seq<Wakeup>)
    requires ChunksOk(ws)
    ensures var events := Bridge(ws);
      && (forall e :: e in events ==> e.ToTerminal? || e.ToDevice?)
      && (forall e :: e in events && e.ToDevice? ==> |e.data| >= 1 && e.data[|e.data| - 1] == '\r')
      && |events| <= 2 * |ws|
    decreases |ws|
  {
    if ws != [] && !ws[0].SelectFailed? {
      BridgeWrites(ws[1..]);
    }
  }

  /**
   * Nothing is lost before select fails: every chunk read in a served
   * wakeup is written on, the modem's to stdout and the terminal's, with its
   * carriage return, to the modem.
   */
  lemma {:induction false} BridgeDelivers(ws: seq<Wakeup>, k: nat)
    requires ChunksOk(ws) && k < |ws|
    requires forall i :: 0 <= i <= k ==> ws[i].Ready?
    ensures ws[k].fromDevice.Some? ==> ToTerminal(ws[k].fromDevice.value) in Bridge(ws)
    ensures ws[k].fromInput.Some? ==>
              |ws[k].fromInput.value| >= 1 && ToDevice(CrTerminated(ws[k].fromInput.value)) in Bridge(ws)
    decreases k
  {
    assert ws[0].Ready?;
    var step, rest := Relay(ws[0]), Bridge(ws[1..]);
    assert Bridge(ws) == step + rest;
    if k == 0 {
      RelayWrites(ws[0]);
    } else {
      assert forall i :: 0 <= i <= k - 1 ==> ws[1..][i] == ws[i + 1];
      BridgeDelivers(ws[1..], k - 1);
      assert ws[1..][k - 1] == ws[k];
    }
  }

  /** A served wakeup contributes its relay, then the loop goes on with the rest. */
  lemma BridgeStep(ws: seq<Wakeup>, k: nat, before: seq<Event>)
    requires k < |ws| && ChunksOk(ws[k..]) && ws[k].Ready?
    ensures ChunksOk([ws[k]]) && ChunksOk(ws[k + 1..])
    ensures before + Bridge(ws[k..]) == (before + Relay(ws[k])) + Bridge(ws[k + 1..])
  {
    assert ws[k..][0] == ws[k] && ws[k..][1..] == ws[k + 1..];
  }

  /** After the open: the two ioctls and, once both succeed, the relay. */
  function Configured(baud: int, io: SerialIo): seq<Event>
    requires ChunksOk(io.wakeups)
  {
    if io.getAttrFails then [GetAttr(false)]
    else if io.setAttrFails then [GetAttr(true), SetAttr(baud, false)]
    else [GetAttr(true), SetAttr(baud, true), ToDevice("\r")] + Bridge(io.wakeups)
  }

  /** Exit status, the calls made, and the lock directory afterwards. */
  datatype SessionOutcome = SessionOutcome(exit: int, trace: seq<Event>, files: Files)

  /**
   * The calls main makes for a chosen device, given what lock_device and
   * unlock_device return: a lock that fails ends the run; after a lock,
   * every path ends with unlock_device.
   */
  function SessionTrace(dev: string, locked: int, unlocked: int, baud: int, io: SerialIo): seq<Event>
    requires ChunksOk(io.wakeups)
  {
    if locked < 0 then [LockCall(dev, locked)]
    else [LockCall(dev, locked)] + Middle(dev, baud, io) + [UnlockCall(dev, unlocked)]
  }

  /** The calls between a successful lock_device and the unlock_device that ends the run. */
  function Middle(dev: string, baud: int, io: SerialIo): seq<Event>
    requires ChunksOk(io.wakeups)
  {
    if io.openFails then [OpenCall(dev, false)]
    else [OpenCall(dev, true)] + Configured(baud, io) + [CloseCall]
  }

  /** main from the choice of device to its return. */
  function Serve(files: Files, live: set<int>, choice: Choice, pid: Pid, lf: LockFaults,
                 unlockFails: bool, io: SerialIo): SessionOutcome
    requires ChunksOk(io.wakeups)
  {
    match choice
    case NoSession => SessionOutcome(ExitSuccess, [], files)
    case Use(dev, baud) =>
      var path := LockPath(dev);
      var l := Acquire(files, live, path, pid, lf);
      var u := Release(l.files, path, unlockFails);
      SessionOutcome(
        if l.status < 0 || io.openFails then ExitFailure else ExitSuccess,
        SessionTrace(dev, l.status, u.status, baud, io),
        if l.status < 0 then l.files else u.files)
  }

  /**
   * A failed ioctl after the open skips the loop and leaves by EXIT: the
   * device is closed, then unlocked, and nothing is written to it.
   */
  lemma IoctlFailureClosesThenUnlocks(dev: string, locked: int, unlocked: int, baud: int, io: SerialIo)
    requires ChunksOk(io.wakeups)
    requires locked >= 0 && !io.openFails && (io.getAttrFails || io.setAttrFails)
    ensures var t := SessionTrace(dev, locked, unlocked, baud, io);
      && |t| >= 4
      && t[|t| - 2] == CloseCall && t[|t| - 1] == UnlockCall(dev, unlocked)
      && forall e :: e in t ==> !e.ToDevice?
  {
    var t := SessionTrace(dev, locked, unlocked, baud, io);
    if io.getAttrFails {
      assert t == [LockCall(dev, locked), OpenCall(dev, true), GetAttr(false), CloseCall, UnlockCall(dev, unlocked)];
    } else {
      assert t == [LockCall(dev, locked), OpenCall(dev, true), GetAttr(true), SetAttr(baud, false), CloseCall,
                   UnlockCall(dev, unlocked)];
    }
  }

  /** A trace that starts with a lock_device that succeeded. */
  predicate Locked(trace: seq<Event>) {
    |trace| >= 1 && trace[0].LockCall? && trace[0].status >= 0
  }

  predicate IsLock(e: Event) { e.LockCall? }
  predicate IsUnlock(e: Event) { e.UnlockCall? }

  /** How many events of the trace satisfy p. */
  function Count(trace: seq<Event>, p: Event -> bool): (n: nat)
    ensures n <= |trace|
  {
    if trace == [] then 0 else (if p(trace[0]) then 1 else 0) + Count(trace[1..], p)
  }

  lemma {:induction false} CountAppend(a: seq<Event>, b: seq<Event>, p: Event -> bool)
    ensures Count(a + b, p) == Count(a, p) + Count(b, p)
    decreases |a|
  {
    if a != [] {
      assert (a + b)[1..] == a[1..] + b;
      CountAppend(a[1..], b, p);
    } else {
      assert a + b == b;
    }
  }

  lemma {:induction false} CountNone(t: seq<Event>, p: Event -> bool)
    requires forall e :: e in t ==> !p(e)
    ensures Count(t, p) == 0
    decreases |t|
  {
    if t != [] {
      assert forall e :: e in t[1..] ==> e in t;
      CountNone(t[1..], p);
    }
  }

  /** No event of the trace locks or unlocks. */
  predicate LeavesLockAlone(t: seq<Event>) {
    forall e :: e in t ==> !IsLock(e) && !IsUnlock(e)
  }

  /** The ioctls and the select loop neither lock nor unlock. */
  lemma ConfiguredLeavesLockAlone(baud: int, io: SerialIo)
    requires ChunksOk(io.wakeups)
    ensures LeavesLockAlone(Configured(baud, io))
  {
    BridgeWrites(io.wakeups);
  }

  /** Between lock and unlock, main neither locks nor unlocks. */
  lemma MiddleLeavesLockAlone(dev: string, baud: int, io: SerialIo)
    requires ChunksOk(io.wakeups)
    ensures Count(Middle(dev, baud, io), IsLock) == 0 && Count(Middle(dev, baud, io), IsUnlock) == 0
  {
    var mid := Middle(dev, baud, io);
    ConfiguredLeavesLockAlone(baud, io);
    assert LeavesLockAlone(mid);
    CountNone(mid, IsLock);
    CountNone(mid, IsUnlock);
  }

  /** The count over a single event. */
  lemma CountOne(e: Event, p: Event -> bool)
    ensures Count([e], p) == if p(e) then 1 else 0
  {
    assert [e][1..] == [];
  }

  /** The trace starts with a successful lock_device exactly when the lock was taken. */
  lemma LockedIffAcquired(dev: string, locked: int, unlocked: int, baud: int, io: SerialIo)
    requires ChunksOk(io.wakeups)
    ensures Locked(SessionTrace(dev, locked, unlocked, baud, io)) <==> locked >= 0
  {
    assert SessionTrace(dev, locked, unlocked, baud, io)[0] == LockCall(dev, locked);
  }

  /**
   * Lock and unlock pair up on every exit path: one lock_device, and one
   * unlock_device, as the last call and for the same device, exactly when
   * the lock was taken.
   */
  lemma LockUnlockPaired(dev: string, locked: int, unlocked: int, baud: int, io: SerialIo)
    requires ChunksOk(io.wakeups)
    ensures var t := SessionTrace(dev, locked, unlocked, baud, io);
      && t[0] == LockCall(dev, locked)
      && Count(t, IsLock) == 1
      && Count(t, IsUnlock) == (if Locked(t) then 1 else 0)
      && (Locked(t) ==> t[|t| - 1] == UnlockCall(dev, unlocked))
  {
    var head := [LockCall(dev, locked)];
    CountOne(LockCall(dev, locked), IsLock);
    CountOne(LockCall(dev, locked), IsUnlock);
    if locked >= 0 {
      var mid := Middle(dev, baud, io);
      var last := [UnlockCall(dev, unlocked)];
      MiddleLeavesLockAlone(dev, baud, io);
      CountOne(UnlockCall(dev, unlocked), IsLock);
      CountOne(UnlockCall(dev, unlocked), IsUnlock);
      CountAppend(head, mid, IsLock);
      CountAppend(head, mid, IsUnlock);
      CountAppend(head + mid, last, IsLock);
      CountAppend(head + mid, last, IsUnlock);
    }
  }

  /**
   * Exit codes: EXIT_FAILURE exactly when a chosen device could not be
   * locked or opened; every other path, failures included, returns EXIT_SUCCESS.
   */
  lemma ExitCodes(files: Files, live: set<int>, choice: Choice, pid: Pid, lf: LockFaults,
                  unlockFails: bool, io: SerialIo)
    requires ChunksOk(io.wakeups)
    ensures var o := Serve(files, live, choice, pid, lf, unlockFails, io);
      && (o.exit == ExitSuccess || o.exit == ExitFailure)
      && (o.exit == ExitFailure <==>
            choice.Use? && (Acquire(files, live, LockPath(choice.dev), pid, lf).status != 0 || io.openFails))
  {
  }

  /** A device whose lock file names a running process is left alone. */
  lemma LiveOwnerBlocksSession(files: Files, live: set<int>, choice: Choice, pid: Pid, lf: LockFaults,
                               unlockFails: bool, io: SerialIo)
    requires ChunksOk(io.wakeups)
    requires choice.Use? && HeldByLive(files, live, LockPath(choice.dev), lf)
    ensures Serve(files, live, choice, pid, lf, unlockFails, io)
              == SessionOutcome(ExitFailure, [LockCall(choice.dev, -1)], files)
  {
  }

  /** The lock directory after lock_device and, when the lock was taken, unlock_device. */
  lemma LockThenUnlock(files: Files, live: set<int>, path: string, pid: Pid, lf: LockFaults, unlockFails: bool)
    ensures var l := Acquire(files, live, path, pid, lf);
      var after := if l.status < 0 then l.files else Release(l.files, path, unlockFails).files;
      && (l.status >= 0 && !unlockFails ==> after == files - {path})
      && (l.status < 0 ==> after == files || after == files - {path})
  {
    var l := Acquire(files, live, path, pid, lf);
    if l.status >= 0 {
      assert l.files - {path} == files - {path};
    }
  }

  /**
   * No lock file is left behind: once the lock was taken and the final
   * unlink succeeds, the lock directory is what it was, less the device's
   * lock file; a lock that was not taken changes at most that file.
   */
  lemma SessionFreesLockFile(files: Files, live: set<int>, choice: Choice, pid: Pid, lf: LockFaults,
                             unlockFails: bool, io: SerialIo)
    requires ChunksOk(io.wakeups)
    ensures var o := Serve(files, live, choice, pid, lf, unlockFails, io);
      && (Locked(o.trace) && !unlockFails ==> o.files == files - {LockPath(choice.dev)})
      && (choice.Use? && !Locked(o.trace) ==>
            o.files == files || o.files == files - {LockPath(choice.dev)})
      && (choice.NoSession? ==> o.files == files)
  {
    if choice.Use? {
      var path := LockPath(choice.dev);
      var l := Acquire(files, live, path, pid, lf);
      var u := Release(l.files, path, unlockFails);
      LockedIffAcquired(choice.dev, l.status, u.status, choice.baud, io);
      LockThenUnlock(files, live, path, pid, lf, unlockFails);
    }
  }

  /** A line typed with its newline reaches the modem with a carriage return instead. */
  lemma NewlineBecomesCr(line: string)
    ensures CrTerminated(line + "\n") == line + "\r"
  {
    var r := CrTerminated(line + "\n");
    assert r[..|line|] == line;
  }

  /** Wakeups after a failed select are never served. */
  lemma {:induction false} BridgeStopsAtFailure(ws: seq<Wakeup>, rest: seq<Wakeup>)
    requires ChunksOk(ws + [SelectFailed] + rest)
    ensures ChunksOk(ws) && ChunksOk(ws + [SelectFailed])
    ensures Bridge(ws + [SelectFailed] + rest) == Bridge(ws + [SelectFailed])
    decreases |ws|
  {
    if ws != [] && !ws[0].SelectFailed? {
      assert (ws + [SelectFailed] + rest)[1..] == ws[1..] + [SelectFailed] + rest;
      assert (ws + [SelectFailed])[1..] == ws[1..] + [SelectFailed];
      BridgeStopsAtFailure(ws[1..], rest);
    }
  }

  /** With three devices found, typing "2" and Enter picks the second. */
  lemma PickSecondOfThree(a: ScsDevice, b: ScsDevice, c: ScsDevice)
    requires a.model < ModemCount && b.model < ModemCount && c.model < ModemCount
    ensures Pick([a, b, c], "2\n") == Use(b.tty, Modems[b.model].baud)
  {
    assert "2\n" == [DigitChar(2)] + "\n";
    ScanDigit(2, "\n");
  }

  /** With three devices found, "0", "4" and text without a number select nothing. */
  lemma PickRejectsOutOfRange(a: ScsDevice, b: ScsDevice, c: ScsDevice, typed: string)
    requires a.model < ModemCount && b.model < ModemCount && c.model < ModemCount
    requires typed == "0" || typed == "4" || (typed != [] && 'a' <= typed[0] <= 'z')
    ensures Pick([a, b, c], typed) == NoSession
  {
    if typed == "0" {
      assert typed == [DigitChar(0)] + [];
      ScanDigit(0, []);
    } else if typed == "4" {
      assert typed == [DigitChar(4)] + [];
      ScanDigit(4, []);
    } else {
      assert "" + "" + typed == typed;
      ScanNoDigits("", "", typed);
    }
  }

  /** read() of one chunk into `buf`. */
  method ReadInto(buf: array<char>, chunk: string)
    requires |chunk| <= buf.Length
    modifies buf
    ensures buf[..|chunk|] == chunk
  {
    forall i | 0 <= i < |chunk| {
      buf[i] := chunk[i];
    }
  }

  /**
   * One turn of the select loop: the modem's bytes go to stdout as read;
   * the terminal's last byte is overwritten with '\r' before the write.
   */
  method RelayOnce(buf: array<char>, w: Wakeup) returns (step: seq<Event>)
    requires buf.Length == ChunkMax
    requires ChunksOk([w]) && w.Ready?
    modifies buf
    ensures step == Relay(w)
  {
    step := [];
    if w.fromDevice.Some? {
      var rd := |w.fromDevice.value|;
      ReadInto(buf, w.fromDevice.value);
      step := step + [ToTerminal(buf[..rd])];
    }
    if w.fromInput.Some? {
      var rd := |w.fromInput.value|;
      ReadInto(buf, w.fromInput.value);
      buf[rd - 1] := '\r';
      assert buf[..rd] == CrTerminated(w.fromInput.value);
      step := step + [ToDevice(buf[..rd])];
    }
  }

  /** The select loop, through the 256-byte `buf`, until select fails or the wakeups end. */
  method BridgeLoop(ws: seq<Wakeup>) returns (events: seq<Event>)
    requires ChunksOk(ws)
    ensures events == Bridge(ws)
  {
    var buf := new char[ChunkMax];
    events := [];
    var k := 0;
    while k < |ws|
      invariant 0 <= k <= |ws|
      invariant ChunksOk(ws[k..])
      invariant events + Bridge(ws[k..]) == Bridge(ws)
    {
      if ws[k].SelectFailed? {
        return;
      }
      BridgeStep(ws, k, events);
      var step := RelayOnce(buf, ws[k]);
      events := events + step;
      k := k + 1;
    }
  }

  /**
   * main up to the choice of device: the explicit argument, or find_devices
   * into a fresh devs[8] followed by the prompt.
   */
  method ChooseDevice(args: seq<string>, scan: UsbScan, sysfs: SysfsTree, typed: string)
    returns (choice: Choice)
    requires !ExplicitDevice(args) ==> ScanResolvable(scan, sysfs)
    ensures choice == Chosen(args, scan, sysfs, typed)
  {
    if |args| == 3 && |args[1]| >= 5 && args[1][..5] == DevDir {
      return Use(args[1], Strtol(args[2]));
    }
    var devs := new ScsDevice[MaxScsDevices](_ => ScsDevice("", 0));
    var n := FindDevices(scan, sysfs, devs);
    choice := PickDevice(devs, n, typed);
  }

  /** The prompt over the records find_devices wrote into devs[0..n-1]. */
  method PickDevice(devs: array<ScsDevice>, n: nat, typed: string) returns (choice: Choice)
    requires n <= devs.Length
    requires forall d :: d in devs[..n] ==> d.model < ModemCount
    ensures choice == Pick(devs[..n], typed)
  {
    var num := 0;
    if n == 0 {
      return NoSession;
    } else if n > 1 {
      num := Strtol(typed);
      if num < 1 || num > n {
        return NoSession;
      }
      num := num - 1;
    }
    assert devs[..n][num] == devs[num];
    choice := Use(devs[num].tty, Modems[devs[num].model].baud);
  }

  /** The two ioctls on the open line and, once both succeed, the initial "\r" and the loop. */
  method ConfigureAndRelay(baud: int, io: SerialIo) returns (configured: seq<Event>)
    requires ChunksOk(io.wakeups)
    ensures configured == Configured(baud, io)
  {
    if io.getAttrFails {
      configured := [GetAttr(false)];
    } else if io.setAttrFails {
      configured := [GetAttr(true), SetAttr(baud, false)];
    } else {
      var relayed := BridgeLoop(io.wakeups);
      configured := [GetAttr(true), SetAttr(baud, true), ToDevice("\r")] + relayed;
    }
  }

  /** main from lock_device on, for the chosen device. */
  method ServeDevice(store: LockStore, dev: string, baud: int, pid: Pid, lf: LockFaults,
                     unlockFails: bool, io: SerialIo)
    returns (exit: int, trace: seq<Event>)
    requires ReadFits(store.files, LockPath(dev), lf)
    requires ChunksOk(io.wakeups)
    modifies store`files
    ensures var o := Serve(old(store.files), store.live, Use(dev, baud), pid, lf, unlockFails, io);
      exit == o.exit && trace == o.trace && store.files == o.files
  {
    ServeByLock(store.files, store.live, dev, baud, pid, lf, unlockFails, io);
    var r := store.LockDevice(dev, pid, lf);
    if r < 0 {
      return ExitFailure, [LockCall(dev, r)];
    }
    exit, trace := ServeLocked(store, dev, r, baud, unlockFails, io);
  }

  /** Serve for a chosen device, split on what lock_device returned. */
  lemma ServeByLock(files: Files, live: set<int>, dev: string, baud: int, pid: Pid, lf: LockFaults,
                    unlockFails: bool, io: SerialIo)
    requires ChunksOk(io.wakeups)
    ensures var l := Acquire(files, live, LockPath(dev), pid, lf);
      var o := Serve(files, live, Use(dev, baud), pid, lf, unlockFails, io);
      && (l.status < 0 ==> o == SessionOutcome(ExitFailure, [LockCall(dev, l.status)], l.files))
      && (l.status >= 0 ==>
            var u := Release(l.files, LockPath(dev), unlockFails);
            o == SessionOutcome(if io.openFails then ExitFailure else ExitSuccess,
                                SessionTrace(dev, l.status, u.status, baud, io), u.files))
  {
  }

  /**
   * main once the lock is taken: open, configure and relay, then
   * unlock_device on the way out, whether the open failed or not.
   */
  method ServeLocked(store: LockStore, dev: string, locked: int, baud: int, unlockFails: bool, io: SerialIo)
    returns (exit: int, trace: seq<Event>)
    requires locked >= 0 && ChunksOk(io.wakeups)
    modifies store`files
    ensures var u := Release(old(store.files), LockPath(dev), unlockFails);
      && store.files == u.files
      && exit == (if io.openFails then ExitFailure else ExitSuccess)
      && trace == SessionTrace(dev, locked, u.status, baud, io)
  {
    var mid: seq<Event>;
    if io.openFails {
      mid := [OpenCall(dev, false)];
    } else {
      var configured := ConfigureAndRelay(baud, io);
      mid := [OpenCall(dev, true)] + configured + [CloseCall];
    }
    var u := store.UnlockDevice(dev, unlockFails);
    exit := if io.openFails then ExitFailure else ExitSuccess;
    trace := [LockCall(dev, locked)] + mid + [UnlockCall(dev, u)];
  }

  /** What main needs of its environment to stay clear of undefined behaviour. */
  predicate Defined(args: seq<string>, scan: UsbScan, sysfs: SysfsTree, typed: string,
                    files: Files, lf: LockFaults, io: SerialIo) {
    && (!ExplicitDevice(args) ==> ScanResolvable(scan, sysfs))
    && ChunksOk(io.wakeups)
    && var c := Chosen(args, scan, sysfs, typed);
       c.Use? ==> |c.dev| < SerdevSize && ReadFits(files, LockPath(c.dev), lf)
  }

  /** main: choose, then serve the chosen device. */
  method RunSession(store: LockStore, args: seq<string>, scan: UsbScan, sysfs: SysfsTree, typed: string,
                    pid: Pid, lf: LockFaults, unlockFails: bool, io: SerialIo)
    returns (exit: int, trace: seq<Event>)
    requires Defined(args, scan, sysfs, typed, store.files, lf, io)
    modifies store`files
    ensures var o := Serve(old(store.files), store.live, Chosen(args, scan, sysfs, typed), pid, lf, unlockFails, io);
      exit == o.exit && trace == o.trace && store.files == o.files
  {
    var choice := ChooseDevice(args, scan, sysfs, typed);
    if choice.NoSession? {
      return ExitSuccess, [];
    }
    exit, trace := ServeDevice(store, choice.dev, choice.baud, pid, lf, unlockFails, io);
  }
}
