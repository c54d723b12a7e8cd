# scsterm core in Dafny

This is a model of the core of `scsterm`, a small terminal program for SCS
PACTOR modems attached over USB. The core has two parts:

- **lock.c / lock.h** (modules `Lock`, `LockDefs`). These implement UUCP-style
  device locks. A device is locked by creating `/var/lock/LCK..<basename>`
  with the owner's pid written as `"%10d\n"`. An existing lock file is
  treated as stale when its pid no longer runs. A stale file is unlinked
  once, and then the exclusive create is tried. `unlock_device` unlinks the
  same path. The lock directory is the field `files` (path to contents) of
  the class `LockStore`. `LockStore.LockDevice` and `LockStore.UnlockDevice`
  are proved against the functions `Acquire` and `Release`.
- **scsterm.c** (modules `Discovery`, `Session`). This part covers:
  - the `modems` table and the vendor/product filter (vendor 0x0403, product
    0xD010..0xD017, model = product & 7);
  - the sysfs interface path `"/sys/bus/usb/devices/<bus>-<p1>.<p2>...:1.0/"`;
  - the `srchtty` ttyUSB filter, and the 20-byte `/dev/` tty path;
  - `find_devices`, which fills at most eight records into `devs[]` in
    enumeration order;
  - `main`:
    - the explicit `/dev/...` argument and its `strtol` baud;
    - the selection prompt;
    - lock, open and the two ioctls;
    - the initial `"\r"` and the select loop with carriage-return
      substitution;
    - the exit paths with their unlock.

  `FindDevices`, `BuildSysfsPath`, `BridgeLoop`, `ChooseDevice`,
  `ServeDevice` and `RunSession` are methods over arrays and the lock store.
  Each is proved equal to a specification function (`Discover`,
  `SysfsPath`, `Bridge`, `Chosen`, `Serve`). The lemmas about those
  functions state what the program promises:
  - the first eight matches are kept;
  - a selection is rejected unless it is in range;
  - lock and unlock pair up on every path;
  - no lock file is left behind;
  - EXIT_FAILURE is returned only for a failed lock or a failed open.
- **decimal.dfy** (module `Decimal`) models the C library conversions the
  core relies on: `printf` with `"%u"` and `"%10d"`, and the digit-prefix
  parse of `sscanf`/`scanf` with `"%d"` and of `strtol`.

The environment enters as inputs:
- libusb's device list (`UsbScan`);
- the sysfs directory listings, already in `alphasort` order (`SysfsTree`);
- the running processes (`LockStore.live`);
- which system calls fail (`LockFaults`, `SerialIo`);
- the text typed at the prompt;
- the finite sequence of `select()` wakeups up to the moment the signal
  handler clears `run`.

Undefined behaviour of the C becomes preconditions:
- a lock file read must stay under 20 bytes (`ReadFits`);
- a reached SCS device must have 1 to 8 port numbers and a sysfs directory
  with at least one ttyUSB entry (`Resolvable`), because the C reads
  `ent[0]` regardless;
- each terminal read must return at least one byte (`ChunksOk`);
- the chosen device name must fit `serdev[256]` (`Defined`).

Three behaviours of the code are easy to miss, and the model keeps them:
- Finding no device, an invalid selection, and a failed ioctl or `select`
  all make `main` return EXIT_SUCCESS (scsterm.c:291-295, 310-314, 337-342,
  359-364, 383-389, 405-412). Only a failed lock or a failed open returns
  EXIT_FAILURE (scsterm.c:324-335).
- A device whose sysfs scan does not find exactly one ttyUSB entry is not
  skipped. `find_devices` prints a diagnostic and still takes `ent[0]`
  (scsterm.c:209-221). The count is incremented before the path is
  resolved (scsterm.c:186).
- The last byte of every chunk read from the terminal is overwritten with
  `'\r'`, whatever it was (scsterm.c:399-401). A line typed with its
  newline therefore reaches the modem ending in a carriage return.

## Model

| member | source | states |
|---|---|---|
| LockDefs.Max | lock.h:39-41 | the result is at least both operands and is one of them |
| LockDefs.Min | lock.h:42-44 | the result is at most both operands and is one of them |
| LockDefs.DefineIfUndefined | lock.h:39-44 | an `#ifndef` guard keeps an existing definition, adds the new one only when absent, and leaves every other macro unchanged |
| LockDefs.HeaderKeepsEarlierMacros | lock.h:39-44 | including lock.h never replaces an earlier `min`/`max`; without one, it defines the header's ternary macros |
| Lock.LastSlash | lock.c:62 | strrchr: the index holds '/', and no '/' follows it; None means there is no '/' at all |
| Lock.Basename | lock.c:63 | the basename has no '/', is a suffix of the device, and is preceded by '/' when shorter than it |
| Lock.LockPath | lock.c:62-63 | the lock path never exceeds the 127 characters `lckf[128]` holds |
| Lock.LockPathShape | lock.c:62-63 | every lock path starts with "/var/lock/LCK.." and is a prefix of it plus the basename, of length min(that length, 127); it is exactly that when the basename fits |
| Lock.TruncatedKeepsPrefix | lock.c:62-63 | cutting a prefix plus a basename to n characters (n at least the prefix's length; 127 for lckf[128]) gives min(length, n) characters, never cuts into the prefix, and leaves a short enough path whole |
| Lock.LockDirPrefixSpelledOut | lock.h:47-48 | the prefix "/var/lock/LCK.." is LF_PATH, "/" and LF_PREFIX, 15 characters |
| Lock.FormatPid | lock.c:107 | the record is 11 characters: the pid's digits right-aligned behind spaces in 10 columns, then '\n' |
| Lock.FormatPidRoundTrip | lock.c:75 | sscanf "%d" of the record written by "%10d\n" gives back the pid |
| Lock.BytesRead | lock.c:71 | read returns -1 on failure; otherwise the whole file when it has at most 20 bytes, else its first 20 |
| Lock.CreateExclusive | lock.c:102-109 | O_EXCL never overwrites an existing file; the create succeeds exactly when it does not fail and no file is there, and then adds the caller's record and nothing else; a failure changes nothing |
| Lock.OwnerOfRecord | lock.c:69-75 | the pid lock_device reads back from a lock file written by `pid` is `pid` |
| Lock.Acquire | lock.c:52-112 | status is 0 or -1; on success the lock file holds the caller's record and nothing else changed; a failure changes nothing or only removes the old lock file; with no lock file, the create decides |
| Lock.AcquireDecides | lock.c:66-111 | only a stale lock file is ever removed or replaced; a live owner, an unreadable file or a failed unlink leaves the directory as it was; a stale file that unlinks is followed by exactly one O_EXCL create |
| Lock.Release | lock.c:124-139 | unlock succeeds exactly when the lock file exists and the unlink works, and then removes only that file; otherwise nothing changes |
| Lock.ReadLockFile | lock.c:71-75 | nb is what read returns, and the NUL-terminated buffer holds the first nb bytes of the file |
| Lock.LockStore.constructor | lock.c:52-139 | the store starts with the given files and processes |
| Lock.LockStore.LockDevice | lock.c:52-112 | lock_device returns Acquire's status and leaves Acquire's files |
| Lock.LockStore.LockFile | lock.c:66-111 | the stat/open/read/kill/unlink/create sequence equals Acquire on the lock path |
| Lock.LockStore.UnlockDevice | lock.c:124-139 | unlock_device returns Release's status and leaves Release's files |
| Lock.LiveLockExcludes | lock.c:66-80 | once a running process holds the lock, every other lock_device on that file fails and changes nothing |
| Lock.StaleLockReclaimed | lock.c:82-111 | any readable lock file naming a process that is not running, once unlinked, is replaced by the caller's record, or left removed when the create fails |
| Lock.DeadOwnerReclaimed | lock.c:82-111 | the record an earlier lock_device wrote for a process that has since died is replaced by the caller's record |
| Lock.LockUnlockRoundTrip | lock.c:102-138 | lock then unlock removes exactly the lock file, after which another process can lock the device |
| Decimal.Digits | scsterm.c:199 | "%u" output is a nonempty string of digits without a leading zero |
| Decimal.PadLeft | lock.c:107 | a field width right-aligns the text behind spaces, at the width or longer |
| Decimal.DigitRun | lock.c:75 | the longest digit prefix: all digits, followed by a non-digit or the end |
| Decimal.ValueOfDigits | lock.c:107 | the printed digits denote the printed number |
| Decimal.DigitsLength | lock.c:107 | a number below 10^k prints in at most k digits, so a 31-bit pid fits the 10 columns |
| Decimal.DigitRunStops | lock.c:75 | the digit run of printed digits followed by a non-digit is exactly those digits |
| Decimal.ScanAfterWhiteSpace | lock.c:75 | leading white space of any kind does not change what "%d" reads |
| Decimal.ScanNumber | lock.c:75 | "%d" reads white space, an optional '+' or '-', and the digits up to the first non-digit: their value, negated after '-' |
| Decimal.ScanNoDigits | lock.c:75 | with no digit after the white space and the optional sign, "%d" reads no number |
| Decimal.ScanPaddedDigits | lock.c:75 | padded "%u" output followed by a non-digit reads back as the printed number |
| Decimal.ScanDigit | scsterm.c:304 | a single digit followed by a non-digit reads as that digit |
| Discovery.ModelCode | scsterm.c:221 | the model code indexes the eight-entry modems table |
| Discovery.ModelCodeLowBits | scsterm.c:221 | the product id is its block bits (& 0xFFF8) joined with the model code (& 0x7) |
| Discovery.ScsProductRange | scsterm.c:183 | the filter passes exactly vendor 0x0403 with product 0xD010..0xD017 |
| Discovery.ModelTable | scsterm.c:95-104 | 0xD010 is PTC-IIusb at 115200 and 0xD015 is PTC-IIIusb at 115200; codes 4, 6 and 7 are empty entries with baud 0 |
| Discovery.Strstr | scsterm.c:115 | strstr: the first position where the needle occurs; None when it never occurs |
| Discovery.TtyEntryHasMarker | scsterm.c:113-121 | srchtty accepts a name exactly when "ttyUSB" occurs somewhere in it |
| Discovery.TtyEntries | scsterm.c:209 | scandir with srchtty keeps exactly the entries that contain "ttyUSB", no more than were listed, and a listed first entry that matches stays first |
| Discovery.TtyEntriesAppend | scsterm.c:209 | the filter keeps the listing order: filtering a concatenation concatenates the filtered parts |
| Discovery.TtyEntriesFirst | scsterm.c:209-220 | ent[0] is the first entry of the sorted listing that contains "ttyUSB" |
| Discovery.TtyPath | scsterm.c:220 | the tty path fits tty[20], is a prefix of "/dev/" + name of length min(that length, 19), and equals it when that fits |
| Discovery.SysfsPathExample | scsterm.c:195-203 | bus 1, ports 4.2 give "/sys/bus/usb/devices/1-4.2:1.0/" |
| Discovery.BuildSysfsPath | scsterm.c:195-203 | the snprintf/strcat loop builds SysfsPath: the bus, the ports joined by '.', then ":1.0/" |
| Discovery.JoinPortsShape | scsterm.c:197-202 | the port chain is digits and dots, starts and ends with a digit, and takes at most 4 characters per port |
| Discovery.SysfsPiecesFit | scsterm.c:199-202 | "%u." and "%u:1.0/" of a port number fit the 10-byte buf with its NUL |
| Discovery.JoinPortsExtend | scsterm.c:197-201 | appending "%u." for the next port extends the joined port chain |
| Discovery.Matches | scsterm.c:183-184 | the filtered devices are no more than those listed |
| Discovery.Collected | scsterm.c:178-224 | after any prefix of the list, at most eight records, each with a model below 8 and a tty under 20 characters |
| Discovery.Discover | scsterm.c:143-233 | at most eight records; none when libusb fails |
| Discovery.ReachableDown | scsterm.c:178 | definedness of the loop over a prefix carries over to shorter prefixes |
| Discovery.CollectedStaysFull | scsterm.c:178 | once eight devices are held, the loop stops and later devices change nothing |
| Discovery.MatchesMembership | scsterm.c:183-184 | a device is kept by the filter exactly when it is listed and passes it |
| Discovery.NonScsIgnored | scsterm.c:183-184 | a non-SCS device anywhere in the list changes nothing |
| Discovery.MatchesSnoc | scsterm.c:178-184 | one more listed device is appended to the matches exactly when it passes the filter |
| Discovery.CollectFirstMatches | scsterm.c:178-224 | the records are the first min(8, matches) matching devices, in order, each resolved from its first ttyUSB entry |
| Discovery.DiscoverFirstMatches | scsterm.c:143-233 | find_devices keeps the first eight SCS devices of the whole list, in order, and ignores the rest |
| Discovery.ResolveFirstTty | scsterm.c:209-221 | a record holds the /dev/ path of the first ttyUSB entry of the device's sysfs directory and the product id's low three bits |
| Discovery.ResolveDevice | scsterm.c:188-221 | one matching device yields the record of its first ttyUSB entry and its model code, even when the scan did not find exactly one |
| Discovery.FindDevices | scsterm.c:143-233 | the count is at most 8 and devs[0..count-1] are exactly Discover's records |
| Discovery.ScanDevices | scsterm.c:178-224 | the loop returns the number of records and fills devs with them |
| Discovery.ExamineDevice | scsterm.c:180-186 | one turn of the loop extends the records by the device when it matches, and otherwise leaves them alone |
| Discovery.RecordDevice | scsterm.c:186-221 | the count is incremented and the resolved record is written at devs[count-1] |
| Discovery.CollectedGrows | scsterm.c:186-221 | a matching device examined while fewer than eight are recorded resolves, and its record is appended after the earlier ones |
| Session.Strtol | scsterm.c:274 | strtol returns what "%d" reads from the argument, and 0 where "%d" finds no number |
| Session.StrtolReads | scsterm.c:274 | strtol reads white space, an optional sign and the digits up to the first non-digit, and returns their signed value |
| Session.StrtolNoNumber | scsterm.c:274 | without digits after the white space and the optional sign, strtol returns 0 |
| Session.ExplicitArgumentsUsed | scsterm.c:269-277 | "scsterm /dev/ttyS0 9600" uses /dev/ttyS0 at 9600 baud; a name outside /dev/ or a missing baud argument is not explicit |
| Session.Pick | scsterm.c:291-321 | no devices: no session; one device: it is used at its model's baud; several: a typed number k from 1 to n selects the k-th device at its model's baud, and any other input selects none |
| Session.Chosen | scsterm.c:269-321 | an explicit /dev/ argument is used with strtol of argv[2]; otherwise any device used is one find_devices reported, at its model's baud |
| Session.CrTerminated | scsterm.c:399-401 | the chunk keeps its length and all bytes but the last, which becomes '\r' |
| Session.RelayWrites | scsterm.c:391-402 | one write per ready descriptor: the modem's bytes to stdout first, unchanged; the terminal's bytes last, to the modem, ending in '\r' |
| Session.BridgeDelivers | scsterm.c:380-403 | every chunk read before select fails is written on: the modem's to stdout, the terminal's with its carriage return to the modem |
| Session.BridgeWrites | scsterm.c:380-403 | the loop writes only to stdout and to the modem; every chunk sent to the modem ends in '\r'; at most two writes per wakeup |
| Session.BridgeStep | scsterm.c:380-403 | a served wakeup contributes its relay, and the loop goes on with the rest |
| Session.ConfiguredLeavesLockAlone | scsterm.c:337-403 | the ioctls and the loop neither lock nor unlock |
| Session.MiddleLeavesLockAlone | scsterm.c:330-407 | between lock_device and the final unlock_device there is no other lock or unlock call |
| Session.IoctlFailureClosesThenUnlocks | scsterm.c:337-364 | a failed ioctl skips the loop: the device is closed, then unlocked, and nothing is written to it |
| Session.LockedIffAcquired | scsterm.c:324-328 | the trace starts with a successful lock exactly when lock_device returned 0 or more |
| Session.LockUnlockPaired | scsterm.c:324-412 | every path makes one lock_device; it makes one unlock_device, the last call and for the same device, exactly when the lock was taken |
| Session.ExitCodes | scsterm.c:291-412 | EXIT_FAILURE exactly when a chosen device could not be locked or opened; EXIT_SUCCESS on every other path |
| Session.LiveOwnerBlocksSession | scsterm.c:324-328 | a device locked by a running process fails the run with one lock call and an unchanged lock directory |
| Session.LockThenUnlock | scsterm.c:324-407 | after a taken lock and a successful unlock, the directory is the old one less the lock file; an untaken lock changes at most that file |
| Session.SessionFreesLockFile | scsterm.c:324-412 | no lock file is left behind once the lock was taken and the final unlink succeeds; with no session, nothing changes |
| Session.NewlineBecomesCr | scsterm.c:399-401 | a typed line ending in '\n' reaches the modem ending in '\r' |
| Session.BridgeStopsAtFailure | scsterm.c:383-389 | wakeups after a failed select are never served |
| Session.PickSecondOfThree | scsterm.c:296-321 | with three devices, typing "2" and Enter selects the second |
| Session.PickRejectsOutOfRange | scsterm.c:310-314 | with three devices, "0", "4" and text starting with a letter select nothing |
| Session.ReadInto | scsterm.c:399 | read places the chunk at the start of buf |
| Session.RelayOnce | scsterm.c:391-402 | one turn of the loop makes exactly Relay's writes, with the last input byte turned into '\r' |
| Session.BridgeLoop | scsterm.c:377-403 | the loop over the wakeups through the 256-byte buf makes exactly Bridge's writes |
| Session.ChooseDevice | scsterm.c:269-321 | the device and baud main goes on with are Chosen's |
| Session.PickDevice | scsterm.c:291-321 | the prompt over devs[0..n-1] chooses as Pick does |
| Session.ConfigureAndRelay | scsterm.c:337-403 | the ioctls and, when both succeed, the "\r" and the loop make exactly Configured's calls |
| Session.ServeDevice | scsterm.c:324-412 | from lock_device on, the exit code, the calls and the lock directory are Serve's |
| Session.ServeByLock | scsterm.c:324-335 | a failed lock_device ends the run with EXIT_FAILURE and the one lock call; after a taken lock, the exit code follows the open and the lock directory is what unlock_device leaves |
| Session.ServeLocked | scsterm.c:330-412 | once locked, the run ends in unlock_device on both the open-failure path and the normal path; the exit code depends only on the open |
| Session.RunSession | scsterm.c:251-413 | main's exit code, calls and final lock directory are Serve applied to Chosen |

## Left out

- libusb (`libusb_init`, the device list, descriptors, bus and port numbers) is an input, `UsbScan`; only its failure and its list are modelled.
- `scandir`'s `alphasort` ordering and the directory contents are taken as given in `SysfsTree`; the order is assumed to be the listing order.
- `free_dirent`, `libusb_free_device_list` and `libusb_exit` only release memory and are not modelled.
- The termios2 fields set between the two ioctls (scsterm.c:344-357) are not modelled; the second ioctl is recorded with its baud and its success.
- Signals and `run`: the loop runs over a finite list of wakeups, which stands for the wakeups before a signal clears `run`; `sigHandler` is not modelled.
- Write failures and short writes are not modelled; a read that returns -1 or 0 from the terminal is excluded by `ChunksOk`, since `buf[rd - 1]` would then be out of bounds.
- Integer overflow in `strtol` and `scanf`, and the conversion of the parsed baud to the unsigned `speed_t`, are not modelled; the parse yields the mathematical integer.
- Races between processes on the lock directory (between `stat`, `unlink` and `open`) are not modelled; each call sees one state of `files`.
- Output on stdout and stderr (`printf`, `fprintf`) is not modelled, except the bytes relayed to stdout.
- The truncation of `buf[10]` and `path[PATH_MAX]` in `find_devices` is not modelled; `Discovery.SysfsPiecesFit` and `Discovery.JoinPortsShape` show that the pieces and the path stay far below both sizes.
- Discovery.FindDevices: does not state that the entries of `devs` beyond the count are left untouched.
- Session.Bridge: its properties are stated as the lemma `Session.BridgeWrites` rather than in its own contract.
