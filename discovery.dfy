/**
 * scsterm.c, device discovery: the table of SCS modem models, the USB
 * vendor/product filter, the sysfs interface directory of a USB device, the
 * ttyUSB entry filter (srchtty) and find_devices, which fills at most eight
 * (tty path, model) records in enumeration order.
 *
 * libusb's enumeration is an input (UsbScan); the sysfs directories are a map
 * from path to the entries scandir returns, already in alphasort order.
 */
module Discovery {
  import opened Wrappers
  import opened Decimal
  import opened LockDefs

  /** USB vendor id of the SCS devices' interface chip. */
  const ScsVendorId: bv16 := 0x0403
  /** The block 0xD010..0xD017 of SCS product ids, seen through ProductBlockMask. */
  const ScsProductBlock: bv16 := 0xD010
  const ProductBlockMask: bv16 := 0xFFF8
  const ModelMask: bv16 := 0x7
  /** MAX_SCS_DEVICES: find_devices reports at most this many devices. */
  const MaxScsDevices := 8
  /** PNUM_MAX: the port chain libusb_get_port_numbers may fill. */
  const PnumMax := 8
  /** Size of SCS_Devices.tty, the terminating NUL included. */
  const TtyBufSize := 20
  const SysfsPrefix := "/sys/bus/usb/devices/"
  const DevDir := "/dev/"
  const TtyMarker := "ttyUSB"

  type Byte = b: int | 0 <= b < 256

  /** One entry of the `modems` table: display name and nominal baud rate. */
  datatype Modem = Modem(name: string, baud: nat)

  /** Number of entries of `modems`: one per three-bit model code. */
  const ModemCount := 8

  /** The `modems` table, indexed by model code. */
  const Modems: seq<Modem> := [
    Modem("PTC-IIusb", 115200),
    Modem("Tracker / DSP TNC", 38400),
    Modem("P4dragon DR-7800", 829440),
    Modem("P4dragon DR-7400", 829440),
    Modem("", 0),
    Modem("PTC-IIIusb", 115200),
    Modem("", 0),
    Modem("", 0)
  ]

  /** The filter of find_devices: SCS vendor and a product id in the SCS block. */
  predicate IsScsProduct(vendor: bv16, product: bv16) {
    vendor == ScsVendorId && product & ProductBlockMask == ScsProductBlock
  }

  /** idProduct & 0x7: the low three bits, which index `modems`. */
  function ModelCode(product: bv16): (code: nat)
    ensures code < ModemCount
  {
    (product & ModelMask) as nat
  }

  /** The model code is what the filter's mask leaves out of the product id. */
  lemma ModelCodeLowBits(product: bv16)
    ensures (product & ProductBlockMask) | (ModelCode(product) as bv16) == product
  {
  }

  /** A device passes the filter exactly when its ids are 0x0403 and 0xD010..0xD017. */
  lemma ScsProductRange(vendor: bv16, product: bv16)
    ensures IsScsProduct(vendor, product) <==> vendor == 0x0403 && 0xD010 <= product <= 0xD017
  {
  }

  /** Model codes of the listed product ids and their table entries. */
  lemma ModelTable()
    ensures ModelCode(0xD010) == 0 && Modems[ModelCode(0xD010)] == Modem("PTC-IIusb", 115200)
    ensures ModelCode(0xD015) == 5 && Modems[ModelCode(0xD015)] == Modem("PTC-IIIusb", 115200)
    ensures forall p: bv16 :: ModelCode(p) == 4 || ModelCode(p) == 6 || ModelCode(p) == 7 ==>
              Modems[ModelCode(p)] == Modem("", 0)
  {
  }

  /** `needle` occurs in `hay` starting at position i. */
  predicate OccursAt(hay: string, needle: string, i: nat) {
    i + |needle| <= |hay| && hay[i..i + |needle|] == needle
  }

  /** strstr(hay, needle): the first position where needle occurs in hay. */
  function Strstr(hay: string, needle: string): (r: Option<nat>)
    ensures r.Some? ==> OccursAt(hay, needle, r.value)
    ensures r.Some? ==> forall i: nat :: i < r.value ==> !OccursAt(hay, needle, i)
    ensures r.None? ==> forall i: nat :: !OccursAt(hay, needle, i)
    decreases |hay|
  {
    if |hay| < |needle| then None
    else if hay[..|needle|] == needle then Some(0)
    else
      assert forall i: nat :: 1 <= i ==> OccursAt(hay, needle, i) == OccursAt(hay[1..], needle, i - 1);
      match Strstr(hay[1..], needle)
      case Some(i) => Some(i + 1)
      case None => None
  }

  /** srchtty: a sysfs entry names the tty when it contains "ttyUSB". */
  predicate IsTtyEntry(name: string) {
    Strstr(name, TtyMarker).Some?
  }

  /** srchtty accepts exactly the names in which "ttyUSB" occurs somewhere. */
  lemma TtyEntryHasMarker(name: string)
    ensures IsTtyEntry(name) <==> exists i: nat :: OccursAt(name, TtyMarker, i)
  {
    if !IsTtyEntry(name) {
      assert forall i: nat :: !OccursAt(name, TtyMarker, i);
    }
  }

  /** scandir(path, .., srchtty, ..): the entries srchtty accepts, in listing order. */
  function TtyEntries(entries: seq<string>): (r: seq<string>)
    ensures forall e :: e in r <==> e in entries && IsTtyEntry(e)
    ensures |r| <= |entries|
    ensures entries != [] && IsTtyEntry(entries[0]) ==> r != [] && r[0] == entries[0]
  {
    if entries == [] then []
    else (if IsTtyEntry(entries[0]) then [entries[0]] else []) + TtyEntries(entries[1..])
  }

  /** The filter keeps the listing order: filtering a concatenation concatenates the filtered parts. */
  lemma {:induction false} TtyEntriesAppend(a: seq<string>, b: seq<string>)
    ensures TtyEntries(a + b) == TtyEntries(a) + TtyEntries(b)
    decreases |a|
  {
    if a == [] {
      assert a + b == b;
    } else {
      assert (a + b)[0] == a[0];
      assert (a + b)[1..] == a[1..] + b;
      TtyEntriesAppend(a[1..], b);
    }
  }

  /** ent[0] is the first entry of the listing, in alphasort order, that contains "ttyUSB". */
  lemma {:induction false} TtyEntriesFirst(entries: seq<string>, j: nat)
    requires j < |entries| && IsTtyEntry(entries[j])
    requires forall i :: 0 <= i < j ==> !IsTtyEntry(entries[i])
    ensures TtyEntries(entries) != [] && TtyEntries(entries)[0] == entries[j]
    decreases j
  {
    if j > 0 {
      TtyEntriesFirst(entries[1..], j - 1);
    }
  }

  /** snprintf(tty, 20, "/dev/%s", name): the device node, cut to 19 characters. */
  function TtyPath(name: string): (p: string)
    ensures |p| < TtyBufSize
    ensures p <= DevDir + name
    ensures |DevDir + name| < TtyBufSize ==> p == DevDir + name
    ensures |p| == Min(|DevDir + name|, TtyBufSize - 1)
  {
    var full := DevDir + name;
    full[..Min(|full|, TtyBufSize - 1)]
  }

  /** The port chain joined by '.': "1.4.2". */
  function JoinPorts(ports: seq<Byte>): string
    requires |ports| >= 1
  {
    if |ports| == 1 then Digits(ports[0])
    else JoinPorts(ports[..|ports| - 1]) + "." + Digits(ports[|ports| - 1])
  }

  /**
   * The port chain is digits and dots, starting and ending with a digit,
   * at most 4 characters per port ("255.").
   */
  lemma {:induction false} JoinPortsShape(ports: seq<Byte>)
    requires |ports| >= 1
    ensures var s := JoinPorts(ports);
      && IsDigit(s[0]) && IsDigit(s[|s| - 1])
      && (forall i :: 0 <= i < |s| ==> IsDigit(s[i]) || s[i] == '.')
      && |s| <= 4 * |ports| - 1
    decreases |ports|
  {
    var last := Digits(ports[|ports| - 1]);
    assert Pow10(3) == 1000;
    DigitsLength(ports[|ports| - 1], 3);
    if |ports| > 1 {
      JoinPortsShape(ports[..|ports| - 1]);
      var s := JoinPorts(ports);
      var head := JoinPorts(ports[..|ports| - 1]);
      assert s == head + "." + last;
      assert forall i :: 0 <= i < |s| ==> s[i] == if i < |head| then head[i] else if i == |head| then '.' else last[i - |head| - 1];
    }
  }

  /**
   * Each piece find_devices prints into its 10-byte `buf`, "%u." and
   * "%u:1.0/", fits with its terminating NUL.
   */
  lemma SysfsPiecesFit(port: Byte)
    ensures |Digits(port) + "."| < 10 && |Digits(port) + ":1.0/"| < 10
  {
    assert Pow10(3) == 1000;
    DigitsLength(port, 3);
  }

  /** The sysfs directory of interface 1.0 of the device at `bus` and `ports`. */
  function SysfsPath(bus: Byte, ports: seq<Byte>): string
    requires |ports| >= 1
  {
    SysfsPrefix + Digits(bus) + "-" + JoinPorts(ports) + ":1.0/"
  }

  /** Bus 1, ports 4 then 2: the interface directory "/sys/bus/usb/devices/1-4.2:1.0/". */
  lemma SysfsPathExample()
    ensures SysfsPath(1, [4, 2]) == "/sys/bus/usb/devices/1-4.2:1.0/"
  {
    assert [4, 2][..1] == [4];
    assert Digits(1) == "1" && Digits(4) == "4" && Digits(2) == "2";
  }

  /**
   * The path find_devices builds with snprintf and strcat: "%u." for every
   * port but the last, then "%u:1.0/" for the last. No piece outgrows its
   * 10-byte buffer, since every number is below 256.
   */
  method BuildSysfsPath(bus: Byte, ports: seq<Byte>) returns (path: string)
    requires 1 <= |ports| <= PnumMax
    ensures path == SysfsPath(bus, ports)
  {
    path := SysfsPrefix + Digits(bus) + "-";
    ghost var head := path;
    var n := 0;
    while n < |ports| - 1
      invariant 0 <= n <= |ports| - 1
      invariant n == 0 ==> path == head
      invariant n > 0 ==> path == head + JoinPorts(ports[..n]) + "."
    {
      JoinPortsExtend(ports, n, head);
      path := path + Digits(ports[n]) + ".";
      n := n + 1;
    }
    JoinPortsExtend(ports, n, head);
    assert ports[..n + 1] == ports;
    path := path + Digits(ports[n]) + ":1.0/";
  }

  /** Appending the next port number to the chain joined so far. */
  lemma JoinPortsExtend(ports: seq<Byte>, n: nat, head: string)
    requires n < |ports|
    ensures n == 0 ==> head + Digits(ports[0]) == head + JoinPorts(ports[..1])
    ensures n > 0 ==> head + JoinPorts(ports[..n]) + "." + Digits(ports[n]) == head + JoinPorts(ports[..n + 1])
  {
    assert ports[..n + 1][..n] == ports[..n];
  }

  /** One device of libusb's list, with what find_devices asks about it. */
  datatype UsbDevice = UsbDevice(vendor: bv16, product: bv16, bus: Byte, ports: seq<Byte>)

  /** libusb_init failed, libusb_get_device_list failed, or the list. */
  datatype UsbScan = InitFailed | ListFailed | Listed(devices: seq<UsbDevice>)

  /** Directory listings of sysfs, by path. */
  type SysfsTree = map<string, seq<string>>

  /** struct SCS_Devices: the tty node and the index into `modems`. */
  datatype ScsDevice = ScsDevice(tty: string, model: nat)

  predicate IsScs(d: UsbDevice) {
    IsScsProduct(d.vendor, d.product)
  }

  /** The devices of the list that pass the filter, in enumeration order. */
  function Matches(list: seq<UsbDevice>): (r: seq<UsbDevice>)
    ensures |r| <= |list|
  {
    if list == [] then []
    else (if IsScs(list[0]) then [list[0]] else []) + Matches(list[1..])
  }

  /**
   * The C reads ent[0] of the scan of the device's sysfs directory: the
   * directory exists and lists at least one ttyUSB entry (with none, the
   * read is undefined behaviour), and the port chain is 1 to 8 long.
   */
  predicate Resolvable(d: UsbDevice, sysfs: SysfsTree) {
    && 1 <= |d.ports| <= PnumMax
    && SysfsPath(d.bus, d.ports) in sysfs
    && |TtyEntries(sysfs[SysfsPath(d.bus, d.ports)])| >= 1
  }

  /**
   * The record of one matching device: the first ttyUSB entry, even when the
   * scan found more than one (the C only prints a diagnostic then).
   */
  function Resolve(d: UsbDevice, sysfs: SysfsTree): ScsDevice
    requires Resolvable(d, sysfs)
  {
    var ent := TtyEntries(sysfs[SysfsPath(d.bus, d.ports)]);
    ScsDevice(TtyPath(ent[0]), ModelCode(d.product))
  }

  /**
   * A resolved record holds the /dev/ path of the first ttyUSB entry of the
   * device's sysfs directory, and the low three bits of its product id.
   */
  lemma ResolveFirstTty(d: UsbDevice, sysfs: SysfsTree, j: nat)
    requires Resolvable(d, sysfs)
    requires var entries := sysfs[SysfsPath(d.bus, d.ports)];
      && j < |entries| && IsTtyEntry(entries[j])
      && forall i :: 0 <= i < j ==> !IsTtyEntry(entries[i])
    ensures Resolve(d, sysfs).tty == TtyPath(sysfs[SysfsPath(d.bus, d.ports)][j])
    ensures Resolve(d, sysfs).model as bv16 == d.product & ModelMask
  {
    TtyEntriesFirst(sysfs[SysfsPath(d.bus, d.ports)], j);
  }

  /**
   * The devices examined among the first n listed are defined: each matching
   * one the loop reaches while it still has room is resolvable.
   */
  predicate Reachable(list: seq<UsbDevice>, n: nat, sysfs: SysfsTree)
    requires n <= |list|
    decreases n, 0
  {
    n == 0 ||
    (Reachable(list, n - 1, sysfs) &&
     (|Collected(list, n - 1, sysfs)| < MaxScsDevices && IsScs(list[n - 1]) ==> Resolvable(list[n - 1], sysfs)))
  }

  /** The records find_devices holds once it has examined the first n listed devices. */
  function Collected(list: seq<UsbDevice>, n: nat, sysfs: SysfsTree): (found: seq<ScsDevice>)
    requires n <= |list| && Reachable(list, n, sysfs)
    ensures |found| <= MaxScsDevices
    ensures forall d :: d in found ==> d.model < ModemCount && |d.tty| < TtyBufSize
    decreases n, 1
  {
    if n == 0 then []
    else
      var before := Collected(list, n - 1, sysfs);
      if |before| < MaxScsDevices && IsScs(list[n - 1]) then before + [Resolve(list[n - 1], sysfs)]
      else before
  }

  predicate ScanResolvable(scan: UsbScan, sysfs: SysfsTree) {
    scan.Listed? ==> Reachable(scan.devices, |scan.devices|, sysfs)
  }

  /** What find_devices reports: the records of the listed devices it kept. */
  function Discover(scan: UsbScan, sysfs: SysfsTree): (found: seq<ScsDevice>)
    requires ScanResolvable(scan, sysfs)
    ensures |found| <= MaxScsDevices
    ensures !scan.Listed? ==> found == []
    ensures forall d :: d in found ==> d.model < ModemCount && |d.tty| < TtyBufSize
  {
    if !scan.Listed? then [] else Collected(scan.devices, |scan.devices|, sysfs)
  }

  /** Definedness of a longer prefix carries over to every shorter one. */
  lemma {:induction false} ReachableDown(list: seq<UsbDevice>, m: nat, n: nat, sysfs: SysfsTree)
    requires n <= m <= |list| && Reachable(list, m, sysfs)
    ensures Reachable(list, n, sysfs)
    decreases m
  {
    if n < m {
      ReachableDown(list, m - 1, n, sysfs);
    }
  }

  /** Once eight records are held, examining further devices changes nothing. */
  lemma {:induction false} CollectedStaysFull(list: seq<UsbDevice>, i: nat, j: nat, sysfs: SysfsTree)
    requires i <= j <= |list| && Reachable(list, j, sysfs)
    requires Reachable(list, i, sysfs) && |Collected(list, i, sysfs)| == MaxScsDevices
    ensures Collected(list, j, sysfs) == Collected(list, i, sysfs)
    decreases j
  {
    if i < j {
      CollectedStaysFull(list, i, j - 1, sysfs);
    }
  }

  /** A device is among the matches exactly when it is listed and passes the filter. */
  lemma {:induction false} MatchesMembership(list: seq<UsbDevice>, d: UsbDevice)
    ensures d in Matches(list) <==> d in list && IsScs(d)
  {
    if list != [] {
      assert list == [list[0]] + list[1..];
      MatchesMembership(list[1..], d);
    }
  }

  /** A device that fails the filter changes nothing, wherever it is listed. */
  lemma {:induction false} NonScsIgnored(a: seq<UsbDevice>, d: UsbDevice, b: seq<UsbDevice>)
    requires !IsScs(d)
    ensures Matches(a + [d] + b) == Matches(a + b)
    decreases |a|
  {
    if a == [] {
      assert (a + [d] + b)[1..] == b;
      assert a + b == b;
    } else {
      assert (a + [d] + b)[1..] == a[1..] + [d] + b;
      assert (a + b)[1..] == a[1..] + b;
      NonScsIgnored(a[1..], d, b);
    }
  }

  /** Listing one more device appends it to the matches when it passes the filter. */
  lemma {:induction false} MatchesSnoc(list: seq<UsbDevice>, d: UsbDevice)
    ensures Matches(list + [d]) == Matches(list) + (if IsScs(d) then [d] else [])
  {
    if list == [] {
      assert [] + [d] == [d];
    } else {
      assert (list + [d])[1..] == list[1..] + [d];
      MatchesSnoc(list[1..], d);
    }
  }

  /**
   * After n listed devices, the records are those of the first matches among
   * them, at most eight, in order: find_devices keeps the first eight SCS
   * devices of the list and ignores the rest.
   */
  lemma {:induction false} CollectFirstMatches(list: seq<UsbDevice>, n: nat, sysfs: SysfsTree)
    requires n <= |list| && Reachable(list, n, sysfs)
    ensures var found := Collected(list, n, sysfs);
      var m := Matches(list[..n]);
      && |found| == Min(MaxScsDevices, |m|)
      && forall k :: 0 <= k < |found| ==> Resolvable(m[k], sysfs) && found[k] == Resolve(m[k], sysfs)
    decreases n
  {
    if n == 0 {
      assert list[..0] == [];
    } else {
      CollectFirstMatches(list, n - 1, sysfs);
      assert list[..n] == list[..n - 1] + [list[n - 1]];
      MatchesSnoc(list[..n - 1], list[n - 1]);
    }
  }

  /** Discover in terms of the whole list: the first eight matches, resolved. */
  lemma DiscoverFirstMatches(scan: UsbScan, sysfs: SysfsTree)
    requires scan.Listed? && ScanResolvable(scan, sysfs)
    ensures var found := Discover(scan, sysfs);
      var m := Matches(scan.devices);
      && |found| == Min(MaxScsDevices, |m|)
      && forall k :: 0 <= k < |found| ==> Resolvable(m[k], sysfs) && found[k] == Resolve(m[k], sysfs)
  {
    CollectFirstMatches(scan.devices, |scan.devices|, sysfs);
    assert scan.devices[..|scan.devices|] == scan.devices;
  }

  /**
   * The body of find_devices' loop for a matching device: build the sysfs
   * path, scan it for ttyUSB entries and take the first.
   */
  method ResolveDevice(d: UsbDevice, sysfs: SysfsTree) returns (rec: ScsDevice)
    requires Resolvable(d, sysfs)
    ensures rec == Resolve(d, sysfs)
  {
    var path := BuildSysfsPath(d.bus, d.ports);
    var ent := TtyEntries(sysfs[path]);
    // |ent| != 1 only prints "tty search error"; ent[0] is used all the same
    rec := ScsDevice(TtyPath(ent[0]), ModelCode(d.product));
  }

  /**
   * find_devices: writes the records into devs[0..status-1], in enumeration
   * order, and returns their number (0 when libusb fails).
   */
  method FindDevices(scan: UsbScan, sysfs: SysfsTree, devs: array<ScsDevice>) returns (status: nat)
    requires devs.Length == MaxScsDevices
    requires ScanResolvable(scan, sysfs)
    modifies devs
    ensures status <= MaxScsDevices
    ensures devs[..status] == Discover(scan, sysfs)
  {
    status := 0;
    if !scan.Listed? {
      return;
    }
    status := ScanDevices(scan.devices, sysfs, devs);
    assert devs[..status] == Discover(scan, sysfs);
  }

  /** The loop of find_devices over libusb's device list. */
  method ScanDevices(list: seq<UsbDevice>, sysfs: SysfsTree, devs: array<ScsDevice>) returns (status: nat)
    requires devs.Length == MaxScsDevices
    requires Reachable(list, |list|, sysfs)
    modifies devs
    ensures status == |Collected(list, |list|, sysfs)|
    ensures forall k :: 0 <= k < status ==> devs[k] == Collected(list, |list|, sysfs)[k]
  {
    status := 0;
    var i := 0;
    while i < |list| && status < MaxScsDevices
      invariant i <= |list| && Reachable(list, i, sysfs)
      invariant status == |Collected(list, i, sysfs)|
      invariant forall k :: 0 <= k < status ==> devs[k] == Collected(list, i, sysfs)[k]
    {
      ReachableDown(list, |list|, i + 1, sysfs);
      status := ExamineDevice(list, i, sysfs, devs, status);
      i := i + 1;
    }
    if i < |list| {
      CollectedStaysFull(list, i, |list|, sysfs);
    }
  }

  /**
   * One turn of find_devices' loop while there is room: a matching device
   * gets the next record and bumps the count; any other device changes nothing.
   */
  method ExamineDevice(list: seq<UsbDevice>, i: nat, sysfs: SysfsTree, devs: array<ScsDevice>, status: nat)
    returns (status': nat)
    requires i < |list| && devs.Length == MaxScsDevices && Reachable(list, i + 1, sysfs)
    requires status == |Collected(list, i, sysfs)| < MaxScsDevices
    requires forall k :: 0 <= k < status ==> devs[k] == Collected(list, i, sysfs)[k]
    modifies devs
    ensures status' == |Collected(list, i + 1, sysfs)|
    ensures forall k :: 0 <= k < status' ==> devs[k] == Collected(list, i + 1, sysfs)[k]
  {
    var d := list[i];
    status' := status;
    if IsScsProduct(d.vendor, d.product) {
      status' := RecordDevice(list, i, sysfs, devs, status);
    }
  }

  /** The turn for a matching device: resolve it into devs[status] and count it. */
  method RecordDevice(list: seq<UsbDevice>, i: nat, sysfs: SysfsTree, devs: array<ScsDevice>, status: nat)
    returns (status': nat)
    requires i < |list| && IsScs(list[i]) && devs.Length == MaxScsDevices && Reachable(list, i + 1, sysfs)
    requires status == |Collected(list, i, sysfs)| < MaxScsDevices
    requires forall k :: 0 <= k < status ==> devs[k] == Collected(list, i, sysfs)[k]
    modifies devs
    ensures status' == |Collected(list, i + 1, sysfs)|
    ensures forall k :: 0 <= k < status' ==> devs[k] == Collected(list, i + 1, sysfs)[k]
  {
    CollectedGrows(list, i, sysfs);
    status' := status + 1;
    var rec := ResolveDevice(list[i], sysfs);
    devs[status' - 1] := rec;
  }

  /** A matching device examined while there is room adds its record at the end. */
  lemma CollectedGrows(list: seq<UsbDevice>, i: nat, sysfs: SysfsTree)
    requires i < |list| && IsScs(list[i]) && Reachable(list, i + 1, sysfs)
    requires Reachable(list, i, sysfs) && |Collected(list, i, sysfs)| < MaxScsDevices
    ensures Resolvable(list[i], sysfs)
    ensures Collected(list, i + 1, sysfs) == Collected(list, i, sysfs) + [Resolve(list[i], sysfs)]
  {
  }
}
