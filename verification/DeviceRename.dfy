/** Comparison of block devices between two snapshots (disk_audit.py): devices that disappeared or
    appeared, and the UUID rules that keep a renamed disk from being reported as either. */
module DeviceRename {
  import opened Options
  import opened Ordering
  import PyText

  datatype Device = Device(name: string, type_: string, uuid: string, sizeKb: int)

  /** Visible mounts only: mount point and device path. */
  datatype Mount = Mount(mount: string, device: string)

  datatype Snapshot = Snapshot(devices: seq<Device>, mounts: seq<Mount>, source: string, truncated: bool)

  datatype Finding =
    | DeviceLost(name: string)
    | CapacityHalved(name: string, oldKb: int, newKb: int)
    | CapacityChanged(name: string, oldKb: int, newKb: int)
    | MountAdded(mount: string)
    | DeviceAdded(name: string)

  // ---------------- names ----------------

  predicate HasPrefix(s: string, prefix: string) {
    prefix <= s
  }

  /** ^(loop|sr|ram|zram|fd|md) */
  predicate Ignored(name: string) {
    HasPrefix(name, "loop") || HasPrefix(name, "sr") || HasPrefix(name, "ram")
    || HasPrefix(name, "zram") || HasPrefix(name, "fd") || HasPrefix(name, "md")
  }

  /** The name without its trailing digits. */
  function Stem(name: string): (r: string)
    ensures r <= name
  {
    if name != [] && PyText.IsDigit(name[|name| - 1]) then Stem(name[..|name| - 1]) else name
  }

  predicate Number(s: string) {
    s != [] && PyText.AllDigits(s)
  }

  /** nvme\d+n\d+ */
  predicate NvmeNamespace(s: string) {
    HasPrefix(s, "nvme") && Stem(s) != s && Stem(s) != [] && Stem(s)[|Stem(s)| - 1] == 'n'
    && |Stem(s)| > 4 && Number(Stem(s)[4..|Stem(s)| - 1])
  }

  /** nvme\d+n\d+ | mmcblk\d+ | loop\d+ */
  predicate NumberedDisk(s: string) {
    NvmeNamespace(s) || (HasPrefix(s, "mmcblk") && Number(s[6..])) || (HasPrefix(s, "loop") && Number(s[4..]))
  }

  predicate Letters(s: string) {
    |s| >= 2 && forall i :: 0 <= i < |s| ==> 'a' <= s[i] <= 'z'
  }

  /** The whole disk a partition name belongs to, as far as the name tells. */
  function Parent(name: string): Option<string> {
    var stem := Stem(name);
    if stem == name then None
    else if stem != [] && stem[|stem| - 1] == 'p' && NumberedDisk(stem[..|stem| - 1]) then Some(stem[..|stem| - 1])
    else if Letters(stem) then Some(stem)
    else None
  }

  // ---------------- the sets the rules use ----------------

  /** A dict comprehension: the last record with a name counts. */
  function DeviceMap(devices: seq<Device>): (r: map<string, Device>)
    ensures forall n :: n in r ==> r[n] in devices && r[n].name == n
    ensures forall d :: d in devices ==> d.name in r
  {
    if devices == [] then map[]
    else
      var last := devices[|devices| - 1];
      assert devices == devices[..|devices| - 1] + [last];
      DeviceMap(devices[..|devices| - 1])[last.name := last]
  }

  function RenamedUuids(prev: Snapshot, cur: Snapshot): set<string> {
    var known := DeviceMap(prev.devices);
    set d | d in cur.devices && d.uuid != "" && (exists n :: n in known && known[n].uuid == d.uuid) :: d.uuid
  }

  function RenamedOldParents(prev: Snapshot, cur: Snapshot): set<string> {
    var kept := RenamedUuids(prev, cur);
    var names := DeviceMap(cur.devices).Keys;
    set d | d in prev.devices && d.uuid in kept && Parent(d.name).Some?
        && Parent(d.name).value !in names :: Parent(d.name).value
  }

  function RenamedParents(prev: Snapshot, cur: Snapshot): set<string> {
    var kept := RenamedUuids(prev, cur);
    set d | d in cur.devices && d.uuid in kept && Parent(d.name).Some? :: Parent(d.name).value
  }

  predicate Comparable(prev: Snapshot, cur: Snapshot) {
    !prev.truncated && !cur.truncated && prev.source == cur.source
  }

  predicate Volatile(d: Device) {
    d.type_ in {"lvm", "loop", "rom"}
  }

  /** The condition under which a device of the earlier snapshot is reported as gone. */
  predicate IsLost(prev: Snapshot, cur: Snapshot, name: string) {
    var old_ := DeviceMap(prev.devices);
    && name in old_ && name !in DeviceMap(cur.devices) && !Ignored(name)
    && !(old_[name].uuid != "" && old_[name].uuid in RenamedUuids(prev, cur))
    && name !in RenamedOldParents(prev, cur)
    && !Volatile(old_[name])
  }

  /** The size finding for a device present in both snapshots. */
  function SizeFinding(name: string, old_: Device, new_: Device): (r: Option<Finding>)
    ensures r.Some? ==> (r.value.CapacityHalved? || r.value.CapacityChanged?) && r.value.name == name
  {
    var a, b := old_.sizeKb, new_.sizeKb;
    var gap := if a < b then b - a else a - b;
    if Volatile(old_) || a <= 0 || b <= 0 || a == b then None
    else if 2 * b < a then Some(CapacityHalved(name, a, b))
    else if 20 * gap > a && gap > 1024 * 1024 then Some(CapacityChanged(name, a, b))
    else None
  }

  /** The keys of that dict in its order: each name where it first occurs. */
  function Names(devices: seq<Device>): (r: seq<string>)
    ensures forall n :: n in r <==> n in DeviceMap(devices)
    ensures forall i, j :: 0 <= i < j < |r| ==> r[i] != r[j]
  {
    if devices == [] then []
    else
      var earlier := Names(devices[..|devices| - 1]);
      var last := devices[|devices| - 1].name;
      if last in earlier then earlier else earlier + [last]
  }

  function LostIn(prev: Snapshot, cur: Snapshot, names: seq<string>): seq<Finding> {
    if names == [] then []
    else
      var n := |names| - 1;
      LostIn(prev, cur, names[..n]) + (if IsLost(prev, cur, names[n]) then [DeviceLost(names[n])] else [])
  }

  function ResizedIn(prev: Snapshot, cur: Snapshot, names: seq<string>): seq<Finding> {
    if names == [] then []
    else
      var n := |names| - 1;
      ResizedIn(prev, cur, names[..n]) + SizeFindings(DeviceMap(prev.devices), DeviceMap(cur.devices), names[n])
  }

  function SizeFindings(old_: map<string, Device>, new_: map<string, Device>, name: string): (r: seq<Finding>)
    ensures |r| <= 1
  {
    if name !in old_ || name !in new_ then []
    else
      var found := SizeFinding(name, old_[name], new_[name]);
      if found.None? then [] else [found.value]
  }

  predicate IsResized(prev: Snapshot, cur: Snapshot, f: Finding) {
    (f.CapacityHalved? || f.CapacityChanged?)
    && f in SizeFindings(DeviceMap(prev.devices), DeviceMap(cur.devices), f.name)
  }

  /** The findings of _check_devices, in order: lost devices first, then sizes, each in the order of the
      earlier snapshot's names; nothing for snapshots that cannot be compared. */
  function DevicesReport(prev: Snapshot, cur: Snapshot): seq<Finding> {
    if !Comparable(prev, cur) then []
    else LostIn(prev, cur, Names(prev.devices)) + ResizedIn(prev, cur, Names(prev.devices))
  }

  /** The tests of the first loop, for one name of the earlier snapshot. */
  method LooksLost(prev: Snapshot, cur: Snapshot, name: string) returns (lost: bool)
    requires name in DeviceMap(prev.devices)
    ensures lost == IsLost(prev, cur, name)
  {
    var old_ := DeviceMap(prev.devices)[name];
    if name in DeviceMap(cur.devices) || Ignored(name) { return false; }
    if old_.uuid != "" && old_.uuid in RenamedUuids(prev, cur) { return false; }
    if name in RenamedOldParents(prev, cur) { return false; }
    lost := !Volatile(old_);
  }

  lemma LostMore(prev: Snapshot, cur: Snapshot, names: seq<string>, i: nat)
    requires i < |names|
    ensures LostIn(prev, cur, names[..i + 1])
            == LostIn(prev, cur, names[..i]) + (if IsLost(prev, cur, names[i]) then [DeviceLost(names[i])] else [])
  {
    assert names[..i + 1][..i] == names[..i];
  }

  method ReportLost(prev: Snapshot, cur: Snapshot) returns (findings: seq<Finding>)
    ensures findings == LostIn(prev, cur, Names(prev.devices))
  {
    findings := [];
    var names := Names(prev.devices);
    for i := 0 to |names|
      invariant findings == LostIn(prev, cur, names[..i])
    {
      LostMore(prev, cur, names, i);
      assert names[i] in names;
      var lost := LooksLost(prev, cur, names[i]);
      if lost { findings := findings + [DeviceLost(names[i])]; }
    }
    assert names[..|names|] == names;
  }

  method ReportSizes(prev: Snapshot, cur: Snapshot) returns (findings: seq<Finding>)
    ensures findings == ResizedIn(prev, cur, Names(prev.devices))
  {
    findings := [];
    var names := Names(prev.devices);
    for i := 0 to |names|
      invariant findings == ResizedIn(prev, cur, names[..i])
    {
      assert names[..i + 1][..i] == names[..i];
      findings := findings + SizeFindings(DeviceMap(prev.devices), DeviceMap(cur.devices), names[i]);
    }
    assert names[..|names|] == names;
  }

  method CheckDevices(prev: Snapshot, cur: Snapshot) returns (findings: seq<Finding>)
    ensures findings == DevicesReport(prev, cur)
    ensures forall f :: f in findings <==>
              Comparable(prev, cur) && ((f.DeviceLost? && IsLost(prev, cur, f.name)) || IsResized(prev, cur, f))
    ensures forall i, j :: 0 <= i < j < |findings| ==> findings[i] != findings[j]
  {
    DevicesReported(prev, cur);
    findings := [];
    if prev.truncated || cur.truncated { return; }
    if prev.source != cur.source { return; }
    findings := ReportLost(prev, cur);
    var sizes := ReportSizes(prev, cur);
    findings := findings + sizes;
  }

  predicate Distinct<T(==)>(s: seq<T>) {
    forall i, j :: 0 <= i < j < |s| ==> s[i] != s[j]
  }

  lemma {:induction false} LostReported(prev: Snapshot, cur: Snapshot, names: seq<string>)
    requires Distinct(names)
    ensures forall f :: f in LostIn(prev, cur, names) <==> f.DeviceLost? && f.name in names && IsLost(prev, cur, f.name)
    ensures Distinct(LostIn(prev, cur, names))
  {
    if names != [] {
      var n := |names| - 1;
      LostReported(prev, cur, names[..n]);
      assert names == names[..n] + [names[n]] && names[n] !in names[..n];
    }
  }

  lemma {:induction false} ResizedReported(prev: Snapshot, cur: Snapshot, names: seq<string>)
    requires Distinct(names)
    ensures forall f :: f in ResizedIn(prev, cur, names) <==> IsResized(prev, cur, f) && f.name in names
    ensures Distinct(ResizedIn(prev, cur, names))
  {
    if names != [] {
      var n := |names| - 1;
      ResizedReported(prev, cur, names[..n]);
      assert names == names[..n] + [names[n]] && names[n] !in names[..n];
      var earlier := ResizedIn(prev, cur, names[..n]);
      var found := SizeFindings(DeviceMap(prev.devices), DeviceMap(cur.devices), names[n]);
      SizeFindingsOf(prev, cur, names[n]);
      forall f | f in earlier ensures f !in found {
        assert f.name in names[..n];
      }
      DistinctJoin(earlier, found);
    }
  }

  lemma SizeFindingsOf(prev: Snapshot, cur: Snapshot, name: string)
    ensures forall f :: f in SizeFindings(DeviceMap(prev.devices), DeviceMap(cur.devices), name) <==>
              IsResized(prev, cur, f) && f.name == name
  {
    forall f | f in SizeFindings(DeviceMap(prev.devices), DeviceMap(cur.devices), name)
      ensures (f.CapacityHalved? || f.CapacityChanged?) && f.name == name
    {
    }
  }

  /** Every lost device and every size change is reported, each once, and nothing else. */
  lemma DevicesReported(prev: Snapshot, cur: Snapshot)
    ensures forall f :: f in DevicesReport(prev, cur) <==>
              Comparable(prev, cur) && ((f.DeviceLost? && IsLost(prev, cur, f.name)) || IsResized(prev, cur, f))
    ensures Distinct(DevicesReport(prev, cur))
  {
    var names := Names(prev.devices);
    LostReported(prev, cur, names);
    ResizedReported(prev, cur, names);
    if Comparable(prev, cur) {
      forall f | IsResized(prev, cur, f) ensures f.name in names { ResizedIsNamed(prev, cur, f); }
      DistinctJoin(LostIn(prev, cur, names), ResizedIn(prev, cur, names));
    }
  }

  lemma ResizedIsNamed(prev: Snapshot, cur: Snapshot, f: Finding)
    requires IsResized(prev, cur, f)
    ensures f.name in Names(prev.devices)
  {
  }

  lemma DistinctJoin<T>(a: seq<T>, b: seq<T>)
    requires Distinct(a) && Distinct(b) && forall x :: x in a ==> x !in b
    ensures Distinct(a + b)
  {
    forall i, j | 0 <= i < j < |a + b| ensures (a + b)[i] != (a + b)[j] {
      if i < |a| <= j { assert a[i] in a && b[j - |a|] in b; }
    }
  }

  /** os.path.basename. */
  function BaseName(path: string): string {
    if path == [] || path[|path| - 1] == '/' then []
    else BaseName(path[..|path| - 1]) + [path[|path| - 1]]
  }

  /** What follows the last slash. */
  lemma {:induction false} BaseNameIs(path: string)
    ensures var base := BaseName(path);
            && '/' !in base && |base| <= |path| && base == path[|path| - |base|..]
            && (|base| < |path| ==> path[|path| - |base| - 1] == '/')
  {
    if path != [] && path[|path| - 1] != '/' {
      BaseNameIs(path[..|path| - 1]);
    }
  }

  /** Mount point to device path; the last record of a mount point counts. */
  function MountMap(mounts: seq<Mount>): map<string, string> {
    if mounts == [] then map[]
    else MountMap(mounts[..|mounts| - 1])[mounts[|mounts| - 1].mount := mounts[|mounts| - 1].device]
  }

  function NewMountPoints(prev: Snapshot, cur: Snapshot): set<string> {
    MountMap(cur.mounts).Keys - MountMap(prev.mounts).Keys
  }

  /** A whole disk with a new name that no surviving UUID explains. */
  predicate IsNewDisk(prev: Snapshot, cur: Snapshot, d: Device) {
    && Comparable(prev, cur) && d in cur.devices
    && d.name !in DeviceMap(prev.devices) && d.type_ == "disk"
    && d.name !in RenamedParents(prev, cur) && !Ignored(d.name)
  }

  /** The device of some new mount point has a name that begins with the disk's: the disk itself, one of its
      partitions, but also sdaa1 for a disk sda. */
  predicate Consumed(prev: Snapshot, cur: Snapshot, name: string) {
    exists m :: m in NewMountPoints(prev, cur) && HasPrefix(BaseName(MountMap(cur.mounts)[m]), name)
  }

  function MountFindings(mounts: seq<string>): (r: seq<Finding>)
    ensures |r| == |mounts| && forall i :: 0 <= i < |r| ==> r[i] == MountAdded(mounts[i])
  {
    seq(|mounts|, i requires 0 <= i < |mounts| => MountAdded(mounts[i]))
  }

  /** The new disks, in the order in which the later snapshot lists them. */
  function NewDisks(prev: Snapshot, cur: Snapshot, devices: seq<Device>): seq<Device> {
    if devices == [] then []
    else
      var n := |devices| - 1;
      NewDisks(prev, cur, devices[..n]) + (if IsNewDisk(prev, cur, devices[n]) then [devices[n]] else [])
  }

  function DiskFindings(prev: Snapshot, cur: Snapshot, disks: seq<Device>): seq<Finding> {
    if disks == [] then []
    else
      var n := |disks| - 1;
      DiskFindings(prev, cur, disks[..n])
      + (if Consumed(prev, cur, disks[n].name) then [] else [DeviceAdded(disks[n].name)])
  }

  /** The findings of _check_additions, in order: new mount points by name, then each record of a new disk
      that no new mount point lies on. */
  function AdditionsReport(prev: Snapshot, cur: Snapshot): seq<Finding> {
    MountFindings(SortedNames(NewMountPoints(prev, cur)))
    + DiskFindings(prev, cur, NewDisks(prev, cur, cur.devices))
  }

  method FindNewDisks(prev: Snapshot, cur: Snapshot) returns (disks: seq<Device>)
    ensures disks == NewDisks(prev, cur, cur.devices)
  {
    disks := [];
    var comparable := !(prev.truncated || cur.truncated) && prev.source == cur.source;
    var known, parents := DeviceMap(prev.devices), RenamedParents(prev, cur);
    for i := 0 to |cur.devices|
      invariant disks == NewDisks(prev, cur, cur.devices[..i])
    {
      var item := cur.devices[i];
      assert cur.devices[..i + 1][..i] == cur.devices[..i];
      if comparable && item.name !in known && item.type_ == "disk" && item.name !in parents && !Ignored(item.name) {
        disks := disks + [item];
      }
    }
    assert cur.devices[..|cur.devices|] == cur.devices;
  }

  /** The loop over the new mount points: its findings, and the names of disks they lie on. */
  method ReportMounts(entries: map<string, string>, mounts: seq<string>, disks: seq<Device>)
    returns (findings: seq<Finding>, consumed: set<string>)
    requires forall m :: m in mounts ==> m in entries
    ensures findings == MountFindings(mounts)
    ensures forall n :: n in consumed <==>
              (exists d :: d in disks && d.name == n) && exists m :: m in mounts && HasPrefix(BaseName(entries[m]), n)
  {
    findings, consumed := [], {};
    for i := 0 to |mounts|
      invariant findings == MountFindings(mounts[..i])
      invariant forall n :: n in consumed <==>
                  (exists d :: d in disks && d.name == n)
                  && exists m :: m in mounts[..i] && HasPrefix(BaseName(entries[m]), n)
    {
      var base := BaseName(entries[mounts[i]]);
      assert mounts[..i + 1] == mounts[..i] + [mounts[i]];
      consumed := consumed + set d | d in disks && HasPrefix(base, d.name) :: d.name;
      findings := findings + [MountAdded(mounts[i])];
    }
    assert mounts[..|mounts|] == mounts;
  }

  method ReportDisks(prev: Snapshot, cur: Snapshot, disks: seq<Device>, consumed: set<string>)
    returns (findings: seq<Finding>)
    requires forall d :: d in disks ==> (d.name in consumed <==> Consumed(prev, cur, d.name))
    ensures findings == DiskFindings(prev, cur, disks)
  {
    findings := [];
    for i := 0 to |disks|
      invariant findings == DiskFindings(prev, cur, disks[..i])
    {
      assert disks[..i + 1][..i] == disks[..i];
      assert disks[i] in disks;
      if disks[i].name in consumed { continue; }
      findings := findings + [DeviceAdded(disks[i].name)];
    }
    assert disks[..|disks|] == disks;
  }

  method CheckAdditions(prev: Snapshot, cur: Snapshot) returns (findings: seq<Finding>)
    ensures findings == AdditionsReport(prev, cur)
    ensures forall f :: f in findings <==>
              || (f.MountAdded? && f.mount in NewMountPoints(prev, cur))
              || (f.DeviceAdded? && (exists d :: IsNewDisk(prev, cur, d) && d.name == f.name)
                  && !Consumed(prev, cur, f.name))
  {
    AdditionsReported(prev, cur);
    var disks := FindNewDisks(prev, cur);
    var mounts := SortedNames(NewMountPoints(prev, cur));
    var consumed;
    findings, consumed := ReportMounts(MountMap(cur.mounts), mounts, disks);
    assert forall m :: m in mounts <==> m in NewMountPoints(prev, cur);
    assert forall n :: n in consumed ==> Consumed(prev, cur, n);
    var added := ReportDisks(prev, cur, disks, consumed);
    findings := findings + added;
  }

  lemma {:induction false} NewDisksListed(prev: Snapshot, cur: Snapshot, devices: seq<Device>)
    ensures forall d :: d in NewDisks(prev, cur, devices) <==> d in devices && IsNewDisk(prev, cur, d)
  {
    if devices != [] {
      var n := |devices| - 1;
      NewDisksListed(prev, cur, devices[..n]);
      assert devices == devices[..n] + [devices[n]];
    }
  }

  lemma {:induction false} DisksReported(prev: Snapshot, cur: Snapshot, disks: seq<Device>)
    ensures forall f :: f in DiskFindings(prev, cur, disks) <==>
              f.DeviceAdded? && (exists d :: d in disks && d.name == f.name) && !Consumed(prev, cur, f.name)
  {
    if disks != [] {
      var n := |disks| - 1;
      DisksReported(prev, cur, disks[..n]);
      assert disks == disks[..n] + [disks[n]];
    }
  }

  /** Every new mount point is reported, and every new disk unless one of them lies on it; nothing else. */
  lemma AdditionsReported(prev: Snapshot, cur: Snapshot)
    ensures forall f :: f in AdditionsReport(prev, cur) <==>
              || (f.MountAdded? && f.mount in NewMountPoints(prev, cur))
              || (f.DeviceAdded? && (exists d :: IsNewDisk(prev, cur, d) && d.name == f.name)
                  && !Consumed(prev, cur, f.name))
  {
    NewDisksListed(prev, cur, cur.devices);
    DisksReported(prev, cur, NewDisks(prev, cur, cur.devices));
    var mounts := SortedNames(NewMountPoints(prev, cur));
    forall f ensures f in MountFindings(mounts) <==> f.MountAdded? && f.mount in NewMountPoints(prev, cur) {
      if f.MountAdded? && f.mount in mounts {
        var i :| 0 <= i < |mounts| && mounts[i] == f.mount;
        assert MountFindings(mounts)[i] == f;
      }
    }
  }

  // ---------------- the reports in terms of the records ----------------

  /** Record i is the last one with this name. */
  predicate LastNamed(devices: seq<Device>, i: nat, name: string) {
    i < |devices| && devices[i].name == name && forall j :: i < j < |devices| ==> devices[j].name != name
  }

  lemma {:induction false} MapHoldsLast(devices: seq<Device>, name: string)
    ensures name in DeviceMap(devices) <==> exists i :: 0 <= i < |devices| && devices[i].name == name
    ensures name in DeviceMap(devices) ==>
              exists i: nat :: LastNamed(devices, i, name) && DeviceMap(devices)[name] == devices[i]
    ensures forall i: nat :: LastNamed(devices, i, name) ==>
              name in DeviceMap(devices) && DeviceMap(devices)[name] == devices[i]
  {
    if devices != [] {
      var n := |devices| - 1;
      MapHoldsLast(devices[..n], name);
      assert devices == devices[..n] + [devices[n]];
      if devices[n].name == name {
        assert LastNamed(devices, n, name);
      } else {
        forall i: nat ensures LastNamed(devices, i, name) <==> LastNamed(devices[..n], i, name) {
          assert i < n ==> devices[..n][i] == devices[i];
        }
      }
    }
  }

  predicate OnDevice(devices: seq<Device>, uuid: string) {
    exists i :: 0 <= i < |devices| && devices[i].uuid == uuid
  }

  /** The UUID is on a record that counts before, and on some record afterwards. */
  ghost predicate Kept(prev: Snapshot, cur: Snapshot, uuid: string) {
    && uuid != "" && OnDevice(cur.devices, uuid)
    && exists i: nat, name :: LastNamed(prev.devices, i, name) && prev.devices[i].uuid == uuid
  }

  lemma KeptIff(prev: Snapshot, cur: Snapshot, uuid: string)
    ensures uuid in RenamedUuids(prev, cur) <==> Kept(prev, cur, uuid)
  {
    var known := DeviceMap(prev.devices);
    if uuid in RenamedUuids(prev, cur) {
      var n :| n in known && known[n].uuid == uuid;
      MapHoldsLast(prev.devices, n);
      var d :| d in cur.devices && d.uuid == uuid;
    }
    if Kept(prev, cur, uuid) {
      var i: nat, name :| LastNamed(prev.devices, i, name) && prev.devices[i].uuid == uuid;
      MapHoldsLast(prev.devices, name);
      var j :| 0 <= j < |cur.devices| && cur.devices[j].uuid == uuid;
      assert cur.devices[j] in cur.devices;
    }
  }

  const IGNORED: seq<string> := ["loop", "sr", "ram", "zram", "fd", "md"]

  /** The name is that of a real device. */
  predicate Real(name: string) {
    forall k :: 0 <= k < |IGNORED| ==> !(IGNORED[k] <= name)
  }

  lemma RealIff(name: string)
    ensures Ignored(name) <==> !Real(name)
  {
    assert IGNORED[0] == "loop" && IGNORED[1] == "sr" && IGNORED[2] == "ram" && IGNORED[3] == "zram"
        && IGNORED[4] == "fd" && IGNORED[5] == "md";
  }

  /** One of these records carries a kept UUID and is by its name a partition of the disk. */
  ghost predicate TracedBy(prev: Snapshot, cur: Snapshot, devices: seq<Device>, disk: string) {
    exists i :: 0 <= i < |devices| && Kept(prev, cur, devices[i].uuid) && Parent(devices[i].name) == Some(disk)
  }

  predicate Named(devices: seq<Device>, name: string) {
    exists i :: 0 <= i < |devices| && devices[i].name == name
  }

  lemma TracedBefore(prev: Snapshot, cur: Snapshot, disk: string)
    ensures disk in RenamedOldParents(prev, cur) <==>
              TracedBy(prev, cur, prev.devices, disk) && !Named(cur.devices, disk)
  {
    MapHoldsLast(cur.devices, disk);
    forall d: Device ensures d.uuid in RenamedUuids(prev, cur) <==> Kept(prev, cur, d.uuid) {
      KeptIff(prev, cur, d.uuid);
    }
  }

  lemma TracedAfter(prev: Snapshot, cur: Snapshot, disk: string)
    ensures disk in RenamedParents(prev, cur) <==> TracedBy(prev, cur, cur.devices, disk)
  {
    forall d: Device ensures d.uuid in RenamedUuids(prev, cur) <==> Kept(prev, cur, d.uuid) {
      KeptIff(prev, cur, d.uuid);
    }
  }

  /** The last record of the name is of no volatile kind, and its UUID is not kept. */
  ghost predicate Untraced(prev: Snapshot, cur: Snapshot, i: nat, name: string) {
    && LastNamed(prev.devices, i, name) && prev.devices[i].type_ !in {"lvm", "loop", "rom"}
    && !Kept(prev, cur, prev.devices[i].uuid)
  }

  lemma UntracedIff(prev: Snapshot, cur: Snapshot, name: string)
    ensures (exists i: nat :: Untraced(prev, cur, i, name)) <==>
              var before := DeviceMap(prev.devices);
              name in before && !Volatile(before[name])
              && !(before[name].uuid != "" && before[name].uuid in RenamedUuids(prev, cur))
  {
    MapHoldsLast(prev.devices, name);
    if name in DeviceMap(prev.devices) {
      var i: nat :| LastNamed(prev.devices, i, name) && DeviceMap(prev.devices)[name] == prev.devices[i];
      KeptIff(prev, cur, prev.devices[i].uuid);
      assert Untraced(prev, cur, i, name) <==>
          !Volatile(prev.devices[i]) && prev.devices[i].uuid !in RenamedUuids(prev, cur);
    }
  }

  /** A device is reported as lost exactly when the snapshots can be compared, its name is that of a real device and
      gone, its last record is of no volatile kind, and neither its own UUID nor that of a partition of it is kept. */
  lemma LostLaw(prev: Snapshot, cur: Snapshot, name: string)
    ensures DeviceLost(name) in DevicesReport(prev, cur) <==>
              && !prev.truncated && !cur.truncated && prev.source == cur.source
              && !Named(cur.devices, name) && Real(name) && !TracedBy(prev, cur, prev.devices, name)
              && exists i: nat :: Untraced(prev, cur, i, name)
  {
    if Comparable(prev, cur) {
      LostIff(prev, cur, name);
      MapHoldsLast(cur.devices, name);
      RealIff(name);
      TracedBefore(prev, cur, name);
      UntracedIff(prev, cur, name);
    }
  }

  /** Records i and j are the last of the name before and afterwards, of no volatile kind and with these sizes. */
  predicate SizesAt(prev: Snapshot, cur: Snapshot, i: nat, j: nat, name: string, before: int, after: int) {
    && LastNamed(prev.devices, i, name) && LastNamed(cur.devices, j, name)
    && prev.devices[i].type_ !in {"lvm", "loop", "rom"}
    && prev.devices[i].sizeKb == before && cur.devices[j].sizeKb == after
  }

  /** The name had and has these sizes, both known, in snapshots that can be compared. */
  ghost predicate SizesOf(prev: Snapshot, cur: Snapshot, name: string, before: int, after: int) {
    && !prev.truncated && !cur.truncated && prev.source == cur.source && before > 0 && after > 0
    && exists i: nat, j: nat :: SizesAt(prev, cur, i, j, name, before, after)
  }

  lemma SizesOfIff(prev: Snapshot, cur: Snapshot, name: string, before: int, after: int)
    ensures SizesOf(prev, cur, name, before, after) <==>
              var old_, new_ := DeviceMap(prev.devices), DeviceMap(cur.devices);
              && Comparable(prev, cur) && name in old_ && name in new_ && !Volatile(old_[name])
              && old_[name].sizeKb == before > 0 && new_[name].sizeKb == after > 0
  {
    MapHoldsLast(prev.devices, name);
    MapHoldsLast(cur.devices, name);
    if name in DeviceMap(prev.devices) && name in DeviceMap(cur.devices) {
      var i: nat :| LastNamed(prev.devices, i, name) && DeviceMap(prev.devices)[name] == prev.devices[i];
      var j: nat :| LastNamed(cur.devices, j, name) && DeviceMap(cur.devices)[name] == cur.devices[j];
      assert SizesAt(prev, cur, i, j, name, prev.devices[i].sizeKb, cur.devices[j].sizeKb)
          <==> !Volatile(prev.devices[i]);
    }
  }

  lemma SizeReported(prev: Snapshot, cur: Snapshot, f: Finding)
    requires f.CapacityHalved? || f.CapacityChanged?
    ensures f in DevicesReport(prev, cur) <==> Comparable(prev, cur) && IsResized(prev, cur, f)
  {
    DevicesReported(prev, cur);
  }

  /** A size is reported exactly when it falls below half, or otherwise changes by more than 5 percent and more than
      1 GB, in KB. */
  lemma SizeLaw(prev: Snapshot, cur: Snapshot, name: string, before: int, after: int)
    ensures CapacityHalved(name, before, after) in DevicesReport(prev, cur) <==>
              SizesOf(prev, cur, name, before, after) && after < before - after
    ensures CapacityChanged(name, before, after) in DevicesReport(prev, cur) <==>
              && SizesOf(prev, cur, name, before, after) && after >= before - after
              && ((after - before > 1048576 && 20 * (after - before) > before)
                  || (before - after > 1048576 && 20 * (before - after) > before))
  {
    var halved, changed := CapacityHalved(name, before, after), CapacityChanged(name, before, after);
    assert halved.name == name && changed.name == name;
    SizeReported(prev, cur, halved);
    SizeReported(prev, cur, changed);
    SizesOfIff(prev, cur, name, before, after);
  }

  /** The last record of the mount point is on this device. */
  predicate MountedOn(mounts: seq<Mount>, i: nat, mount: string) {
    i < |mounts| && mounts[i].mount == mount && forall j :: i < j < |mounts| ==> mounts[j].mount != mount
  }

  lemma {:induction false} MountsHoldLast(mounts: seq<Mount>, mount: string)
    ensures mount in MountMap(mounts) <==> exists i :: 0 <= i < |mounts| && mounts[i].mount == mount
    ensures mount in MountMap(mounts) ==>
              exists i: nat :: MountedOn(mounts, i, mount) && MountMap(mounts)[mount] == mounts[i].device
    ensures forall i: nat :: MountedOn(mounts, i, mount) ==>
              mount in MountMap(mounts) && MountMap(mounts)[mount] == mounts[i].device
  {
    if mounts != [] {
      var n := |mounts| - 1;
      MountsHoldLast(mounts[..n], mount);
      assert mounts == mounts[..n] + [mounts[n]];
      if mounts[n].mount == mount {
        assert MountedOn(mounts, n, mount);
      } else {
        forall i: nat ensures MountedOn(mounts, i, mount) <==> MountedOn(mounts[..n], i, mount) {
          assert i < n ==> mounts[..n][i] == mounts[i];
        }
      }
    }
  }

  predicate IsMounted(mounts: seq<Mount>, mount: string) {
    exists i :: 0 <= i < |mounts| && mounts[i].mount == mount
  }

  /** A mount point that is new is on a device whose name begins with this one. */
  ghost predicate NewlyMounted(prev: Snapshot, cur: Snapshot, name: string) {
    exists i: nat, mount :: MountedOn(cur.mounts, i, mount) && !IsMounted(prev.mounts, mount)
                            && name <= BaseName(cur.mounts[i].device)
  }

  lemma NewlyMountedIff(prev: Snapshot, cur: Snapshot, name: string)
    ensures Consumed(prev, cur, name) <==> NewlyMounted(prev, cur, name)
  {
    if Consumed(prev, cur, name) {
      var m :| m in NewMountPoints(prev, cur) && HasPrefix(BaseName(MountMap(cur.mounts)[m]), name);
      MountsHoldLast(cur.mounts, m);
      MountsHoldLast(prev.mounts, m);
    }
    if NewlyMounted(prev, cur, name) {
      var i: nat, m :| MountedOn(cur.mounts, i, m) && !IsMounted(prev.mounts, m)
                       && name <= BaseName(cur.mounts[i].device);
      MountsHoldLast(cur.mounts, m);
      MountsHoldLast(prev.mounts, m);
      assert m in NewMountPoints(prev, cur);
    }
  }

  predicate HasDisk(devices: seq<Device>, name: string) {
    exists i :: 0 <= i < |devices| && devices[i].name == name && devices[i].type_ == "disk"
  }

  lemma NewDiskIff(prev: Snapshot, cur: Snapshot, name: string)
    ensures (exists d :: IsNewDisk(prev, cur, d) && d.name == name) <==>
              && Comparable(prev, cur) && name !in DeviceMap(prev.devices) && name !in RenamedParents(prev, cur)
              && !Ignored(name) && HasDisk(cur.devices, name)
  {
    if d :| IsNewDisk(prev, cur, d) && d.name == name {
      var i :| 0 <= i < |cur.devices| && cur.devices[i] == d;
    }
    if HasDisk(cur.devices, name) && Comparable(prev, cur) && name !in DeviceMap(prev.devices)
       && name !in RenamedParents(prev, cur) && !Ignored(name) {
      var i :| 0 <= i < |cur.devices| && cur.devices[i].name == name && cur.devices[i].type_ == "disk";
      assert IsNewDisk(prev, cur, cur.devices[i]);
    }
  }

  /** A disk is reported as new exactly when the snapshots can be compared, its name is that of a real device and was
      not there before, no partition of it carries a kept UUID, and no new mount point is on a device so named. */
  lemma NewLaw(prev: Snapshot, cur: Snapshot, name: string)
    ensures DeviceAdded(name) in AdditionsReport(prev, cur) <==>
              && !prev.truncated && !cur.truncated && prev.source == cur.source && Real(name)
              && !Named(prev.devices, name) && HasDisk(cur.devices, name)
              && !TracedBy(prev, cur, cur.devices, name) && !NewlyMounted(prev, cur, name)
  {
    NewIff(prev, cur, name);
    NewDiskIff(prev, cur, name);
    MapHoldsLast(prev.devices, name);
    RealIff(name);
    TracedAfter(prev, cur, name);
    NewlyMountedIff(prev, cur, name);
  }

  /** A mount point is reported as new exactly when it is there and was not. */
  lemma NewMountLaw(prev: Snapshot, cur: Snapshot, mount: string)
    ensures MountAdded(mount) in AdditionsReport(prev, cur) <==>
              IsMounted(cur.mounts, mount) && !IsMounted(prev.mounts, mount)
  {
    AdditionsReported(prev, cur);
    assert MountAdded(mount).mount == mount;
    MountsHoldLast(prev.mounts, mount);
    MountsHoldLast(cur.mounts, mount);
  }

  // ---------------- renaming ----------------

  function Renamed(d: Device, f: map<string, string>): Device {
    if d.name in f then d.(name := f[d.name]) else d
  }

  /** The later snapshot lists the same devices under new names, in any order: the renaming is injective
      and takes the partitions of a disk to the partitions of its new name.  `origin` finds the device
      that a new name stands for. */
  ghost predicate Renaming(prev: Snapshot, cur: Snapshot, f: map<string, string>, origin: map<string, Device>) {
    && Comparable(prev, cur)
    && (forall d, e :: d in prev.devices && e in prev.devices && d.name == e.name ==> d == e)
    && (forall d {:trigger Renamed(d, f)} :: d in prev.devices ==> d.name in f && Renamed(d, f) in cur.devices)
    && (forall c :: c in cur.devices ==>
          c.name in origin && origin[c.name] in prev.devices && c == Renamed(origin[c.name], f))
    && (forall d, e {:trigger Renamed(d, f), Renamed(e, f)} :: d in prev.devices && e in prev.devices ==>
          (Renamed(d, f).name == Renamed(e, f).name ==> d.name == e.name)
          && (Parent(Renamed(d, f).name) == Some(Renamed(e, f).name) <==> Parent(d.name) == Some(e.name)))
  }

  /** Some partition of the disk carries a UUID. */
  ghost predicate HasUuidPartition(prev: Snapshot, disk: string) {
    exists p :: p in prev.devices && p.uuid != "" && Parent(p.name) == Some(disk)
  }

  lemma EveryUuidSurvives(prev: Snapshot, cur: Snapshot, f: map<string, string>, origin: map<string, Device>)
    requires Renaming(prev, cur, f, origin)
    ensures forall d :: d in prev.devices && d.uuid != "" ==> d.uuid in RenamedUuids(prev, cur)
  {
    var known := DeviceMap(prev.devices);
    forall d | d in prev.devices && d.uuid != "" ensures d.uuid in RenamedUuids(prev, cur) {
      var c := Renamed(d, f);
      assert known[d.name] == d;
      assert c in cur.devices && c.uuid == d.uuid;
    }
  }

  lemma OldParentIff(prev: Snapshot, cur: Snapshot, f: map<string, string>, origin: map<string, Device>, name: string)
    requires Renaming(prev, cur, f, origin)
    ensures name in RenamedOldParents(prev, cur) <==> name !in DeviceMap(cur.devices) && HasUuidPartition(prev, name)
  {
    EveryUuidSurvives(prev, cur, f, origin);
    var kept := RenamedUuids(prev, cur);
    assert "" !in kept;
    if HasUuidPartition(prev, name) && name !in DeviceMap(cur.devices) {
      var p :| p in prev.devices && p.uuid != "" && Parent(p.name) == Some(name);
      assert p.uuid in kept;
    }
  }

  lemma NewParentIff(prev: Snapshot, cur: Snapshot, f: map<string, string>, origin: map<string, Device>, d: Device)
    requires Renaming(prev, cur, f, origin) && d in prev.devices
    ensures Renamed(d, f).name in RenamedParents(prev, cur) <==> HasUuidPartition(prev, d.name)
  {
    EveryUuidSurvives(prev, cur, f, origin);
    var kept := RenamedUuids(prev, cur);
    assert "" !in kept;
    var m := Renamed(d, f).name;
    if HasUuidPartition(prev, d.name) {
      var p :| p in prev.devices && p.uuid != "" && Parent(p.name) == Some(d.name);
      var q := Renamed(p, f);
      assert q in cur.devices && q.uuid in kept && Parent(q.name) == Some(m);
    }
    if m in RenamedParents(prev, cur) {
      var q :| q in cur.devices && q.uuid in kept && Parent(q.name).Some? && Parent(q.name).value == m;
      var p := origin[q.name];
      assert q == Renamed(p, f) && p.uuid == q.uuid;
      assert Parent(p.name) == Some(d.name);
    }
  }

  lemma LostIff(prev: Snapshot, cur: Snapshot, name: string)
    requires Comparable(prev, cur)
    ensures DeviceLost(name) in DevicesReport(prev, cur) <==> IsLost(prev, cur, name)
  {
    DevicesReported(prev, cur);
    assert DeviceLost(name).name == name;
  }

  /** The old name is gone, and neither the device nor a partition of it carries a UUID. */
  ghost predicate LosesTrack(prev: Snapshot, cur: Snapshot, d: Device) {
    && d.name !in DeviceMap(cur.devices) && !Ignored(d.name) && !Volatile(d)
    && d.uuid == "" && !HasUuidPartition(prev, d.name)
  }

  /** A whole disk with a name not seen before and no UUID-bearing partition, whether or not the disk itself
      carries a UUID, that no new mount point lies on. */
  ghost predicate LooksNew(prev: Snapshot, cur: Snapshot, f: map<string, string>, d: Device) {
    var name := Renamed(d, f).name;
    && name !in DeviceMap(prev.devices) && d.type_ == "disk" && !Ignored(name)
    && !HasUuidPartition(prev, d.name) && !Consumed(prev, cur, name)
  }

  /** Device d takes over the name of e, and its size differs enough from that of e. */
  predicate LooksResized(f: map<string, string>, d: Device, e: Device) {
    Renamed(d, f).name == e.name && SizeFinding(e.name, e, d).Some?
  }

  /** Exactly which devices a pure renaming reports as lost. */
  lemma LostUnderRenaming(prev: Snapshot, cur: Snapshot, f: map<string, string>, origin: map<string, Device>, d: Device)
    requires Renaming(prev, cur, f, origin) && d in prev.devices
    ensures DeviceLost(d.name) in DevicesReport(prev, cur) <==> LosesTrack(prev, cur, d)
  {
    LostIff(prev, cur, d.name);
    assert d.uuid != "" ==> d.uuid in RenamedUuids(prev, cur) by { EveryUuidSurvives(prev, cur, f, origin); }
    assert DeviceMap(prev.devices)[d.name] == d;
    OldParentIff(prev, cur, f, origin, d.name);
  }

  lemma NewIff(prev: Snapshot, cur: Snapshot, name: string)
    ensures DeviceAdded(name) in AdditionsReport(prev, cur)
            <==> (exists d :: IsNewDisk(prev, cur, d) && d.name == name) && !Consumed(prev, cur, name)
  {
    AdditionsReported(prev, cur);
    assert DeviceAdded(name).name == name;
  }

  lemma OnlyRecordOfItsName(
      prev: Snapshot, cur: Snapshot, f: map<string, string>, origin: map<string, Device>, d: Device)
    requires Renaming(prev, cur, f, origin) && d in prev.devices
    ensures forall c :: c in cur.devices && c.name == Renamed(d, f).name ==> c == Renamed(d, f)
  {
    forall c | c in cur.devices && c.name == Renamed(d, f).name ensures c == Renamed(d, f) {
      var e := origin[c.name];
      assert c == Renamed(e, f) && Renamed(e, f).name == Renamed(d, f).name;
      assert e.name == d.name;
    }
  }

  /** Exactly which devices a pure renaming reports as new. */
  lemma NewUnderRenaming(prev: Snapshot, cur: Snapshot, f: map<string, string>, origin: map<string, Device>, d: Device)
    requires Renaming(prev, cur, f, origin) && d in prev.devices
    ensures DeviceAdded(Renamed(d, f).name) in AdditionsReport(prev, cur) <==> LooksNew(prev, cur, f, d)
  {
    var c := Renamed(d, f);
    NewIff(prev, cur, c.name);
    NewParentIff(prev, cur, f, origin, d);
    OnlyRecordOfItsName(prev, cur, f, origin, d);
    assert (exists x :: IsNewDisk(prev, cur, x) && x.name == c.name) <==> IsNewDisk(prev, cur, c);
  }

  /** Exactly which sizes a pure renaming reports as changed: a name that passes to a device of another size
      is compared with the size of the device that had it before, UUIDs or not. */
  lemma ResizedUnderRenaming(
      prev: Snapshot, cur: Snapshot, f: map<string, string>, origin: map<string, Device>, d: Device, e: Device)
    requires Renaming(prev, cur, f, origin) && d in prev.devices && e in prev.devices && Renamed(d, f).name == e.name
    ensures SizeFindings(DeviceMap(prev.devices), DeviceMap(cur.devices), e.name)
            == (var found := SizeFinding(e.name, e, d); if found.None? then [] else [found.value])
  {
    RecordsOfName(prev, cur, f, origin, d, e);
    SizeIsEnough(e.name, e, Renamed(d, f), d);
  }

  lemma RecordsOfName(
      prev: Snapshot, cur: Snapshot, f: map<string, string>, origin: map<string, Device>, d: Device, e: Device)
    requires Renaming(prev, cur, f, origin) && d in prev.devices && e in prev.devices && Renamed(d, f).name == e.name
    ensures e.name in DeviceMap(prev.devices) && DeviceMap(prev.devices)[e.name] == e
    ensures e.name in DeviceMap(cur.devices) && DeviceMap(cur.devices)[e.name] == Renamed(d, f)
  {
    OnlyRecordOfItsName(prev, cur, f, origin, d);
    var old_, new_ := DeviceMap(prev.devices), DeviceMap(cur.devices);
    assert old_[e.name] in prev.devices && new_[e.name] in cur.devices;
  }

  lemma SizeIsEnough(name: string, old_: Device, new_: Device, other: Device)
    requires new_.sizeKb == other.sizeKb
    ensures SizeFinding(name, old_, new_) == SizeFinding(name, old_, other)
  {
  }

  predicate SizesQuiet(prev: Snapshot, f: map<string, string>) {
    forall d, e :: d in prev.devices && e in prev.devices ==> !LooksResized(f, d, e)
  }

  lemma NothingResizedIff(prev: Snapshot, cur: Snapshot, f: map<string, string>, origin: map<string, Device>)
    requires Renaming(prev, cur, f, origin)
    ensures (forall x :: !IsResized(prev, cur, x)) <==> SizesQuiet(prev, f)
  {
    forall d, e | d in prev.devices && e in prev.devices && LooksResized(f, d, e)
      ensures IsResized(prev, cur, SizeFinding(e.name, e, d).value)
    {
      ResizedUnderRenaming(prev, cur, f, origin, d, e);
    }
    forall x | IsResized(prev, cur, x)
      ensures exists d, e :: d in prev.devices && e in prev.devices && LooksResized(f, d, e)
    {
      var e, c := DeviceMap(prev.devices)[x.name], DeviceMap(cur.devices)[x.name];
      var d := origin[c.name];
      assert c == Renamed(d, f);
      ResizedUnderRenaming(prev, cur, f, origin, d, e);
      assert LooksResized(f, d, e);
    }
  }

  /** The report names no device as lost. */
  predicate NothingLost(prev: Snapshot, cur: Snapshot) {
    forall x :: x in DevicesReport(prev, cur) ==> !x.DeviceLost?
  }

  lemma NothingLostIff(prev: Snapshot, cur: Snapshot, f: map<string, string>, origin: map<string, Device>)
    requires Renaming(prev, cur, f, origin)
    ensures NothingLost(prev, cur) <==> forall d :: d in prev.devices ==> !LosesTrack(prev, cur, d)
  {
    forall d | d in prev.devices ensures DeviceLost(d.name) in DevicesReport(prev, cur) <==> LosesTrack(prev, cur, d) {
      LostUnderRenaming(prev, cur, f, origin, d);
    }
    forall x | x in DevicesReport(prev, cur) && x.DeviceLost?
      ensures exists d :: d in prev.devices && d.name == x.name
    {
      DevicesReported(prev, cur);
      assert DeviceMap(prev.devices)[x.name].name == x.name;
    }
  }

  lemma ReportIsEmptyIff(prev: Snapshot, cur: Snapshot)
    requires Comparable(prev, cur)
    ensures DevicesReport(prev, cur) == [] <==> NothingLost(prev, cur) && forall x :: !IsResized(prev, cur, x)
  {
    DevicesReported(prev, cur);
    var report := DevicesReport(prev, cur);
    if report != [] {
      assert report[0] in report;
    }
  }

  /** The report names no disk as new. */
  predicate NoDiskAdded(prev: Snapshot, cur: Snapshot) {
    forall x :: x in AdditionsReport(prev, cur) ==> !x.DeviceAdded?
  }

  lemma NothingNewIff(prev: Snapshot, cur: Snapshot, f: map<string, string>, origin: map<string, Device>)
    requires Renaming(prev, cur, f, origin)
    ensures NoDiskAdded(prev, cur) <==> forall d :: d in prev.devices ==> !LooksNew(prev, cur, f, d)
  {
    forall d | d in prev.devices
      ensures DeviceAdded(Renamed(d, f).name) in AdditionsReport(prev, cur) <==> LooksNew(prev, cur, f, d)
    {
      NewUnderRenaming(prev, cur, f, origin, d);
    }
    forall x | x in AdditionsReport(prev, cur) && x.DeviceAdded?
      ensures exists d :: d in prev.devices && LooksNew(prev, cur, f, d)
    {
      AdditionsReported(prev, cur);
      var c :| IsNewDisk(prev, cur, c) && c.name == x.name;
      var d := origin[c.name];
      assert c == Renamed(d, f) && DeviceAdded(c.name) == x;
    }
  }

  /** A pure renaming is silent, with no device lost, no size changed and no disk new, exactly when no device
      loses track, no disk looks new, and no name passes to a device whose size looks changed. */
  lemma RenamingIsSilentIff(prev: Snapshot, cur: Snapshot, f: map<string, string>, origin: map<string, Device>)
    requires Renaming(prev, cur, f, origin)
    ensures DevicesReport(prev, cur) == [] && NoDiskAdded(prev, cur) <==>
              && (forall d :: d in prev.devices ==> !LosesTrack(prev, cur, d) && !LooksNew(prev, cur, f, d))
              && SizesQuiet(prev, f)
  {
    ReportIsEmptyIff(prev, cur);
    NothingLostIff(prev, cur, f, origin);
    NothingResizedIff(prev, cur, f, origin);
    NothingNewIff(prev, cur, f, origin);
  }

  /** Whatever else is lost, added or renamed at the same time: a disk with a UUID-bearing partition that
      reappears, under the old or any other name, is not reported as lost, nor is that partition, and the
      disk it now lies on is not reported as new. */
  lemma RenamedDiskIsNotLost(
      prev: Snapshot, cur: Snapshot, disk: string, part: Device, newPart: Device, newDisk: string)
    requires part in prev.devices && DeviceMap(prev.devices)[part.name] == part
    requires part.uuid != "" && Parent(part.name) == Some(disk)
    requires newPart in cur.devices && newPart.uuid == part.uuid && Parent(newPart.name) == Some(newDisk)
    ensures DeviceLost(disk) !in DevicesReport(prev, cur) && DeviceLost(part.name) !in DevicesReport(prev, cur)
    ensures DeviceAdded(newDisk) !in AdditionsReport(prev, cur)
  {
    assert part.name in DeviceMap(prev.devices) && part.uuid in RenamedUuids(prev, cur);
    DevicesReported(prev, cur);
    assert !IsLost(prev, cur, part.name);
    assert disk !in DeviceMap(cur.devices) ==> disk in RenamedOldParents(prev, cur);
    assert !IsLost(prev, cur, disk);
    NewIff(prev, cur, newDisk);
    assert newDisk in RenamedParents(prev, cur);
  }

  // ---------------- names of partitions ----------------

  lemma {:induction false} StemOf(s: string, digits: string)
    requires PyText.AllDigits(digits) && (s == [] || !PyText.IsDigit(s[|s| - 1]))
    ensures Stem(s + digits) == s
  {
    if digits == [] {
      assert s + digits == s;
    } else {
      var n := |digits| - 1;
      StemOf(s, digits[..n]);
      assert (s + digits)[..|s + digits| - 1] == s + digits[..n];
    }
  }

  lemma LettersAreNoNumberedDisk(s: string)
    requires forall i :: 0 <= i < |s| ==> 'a' <= s[i] <= 'z'
    ensures !NumberedDisk(s)
  {
    assert Stem(s) == s;
    assert |s| > 6 ==> s[6..][0] == s[6];
    assert |s| > 4 ==> s[4..][0] == s[4];
  }

  /** The parent of a numbered partition: sdb1 of sdb, nvme0n1p1 of nvme0n1; and md of md0, although md
      is no disk. */
  lemma ParentOfPartition(disk: string, digits: string)
    requires Number(digits)
    ensures Letters(disk) ==> Parent(disk) == None && Parent(disk + digits) == Some(disk)
    ensures NumberedDisk(disk) ==> Parent(disk + "p" + digits) == Some(disk)
  {
    if Letters(disk) {
      StemOf(disk, digits);
      StemOf(disk, "");
      assert disk + "" == disk;
      LettersAreNoNumberedDisk(disk[..|disk| - 1]);
    }
    StemOf(disk + "p", digits);
    assert (disk + "p")[..|disk|] == disk;
  }

  lemma {:induction false} StemSplits(name: string)
    ensures PyText.AllDigits(name[|Stem(name)|..])
    ensures Stem(name) != [] ==> !PyText.IsDigit(Stem(name)[|Stem(name)| - 1])
    ensures name == Stem(name) + name[|Stem(name)|..]
  {
    if name != [] && PyText.IsDigit(name[|name| - 1]) {
      StemSplits(name[..|name| - 1]);
    }
  }

  predicate NvmeForm(disk: string, controller: string, namespace_: string) {
    Number(controller) && Number(namespace_) && disk == "nvme" + controller + "n" + namespace_
  }

  /** One of the three forms of a disk whose partitions are set off by a p. */
  ghost predicate NumberedForm(disk: string) {
    || (exists a, b :: NvmeForm(disk, a, b))
    || (exists a :: Number(a) && (disk == "mmcblk" + a || disk == "loop" + a))
  }

  lemma NvmeIff(disk: string)
    ensures NvmeNamespace(disk) <==> exists a, b :: NvmeForm(disk, a, b)
  {
    if NvmeNamespace(disk) {
      var stem := Stem(disk);
      StemSplits(disk);
      var a, b := stem[4..|stem| - 1], disk[|stem|..];
      assert stem[..4] == "nvme";
      assert NvmeForm(disk, a, b);
    }
    if a, b :| NvmeForm(disk, a, b) {
      NvmeOf(a, b);
    }
  }

  lemma NvmeOf(a: string, b: string)
    requires Number(a) && Number(b)
    ensures NvmeNamespace("nvme" + a + "n" + b)
  {
    var stem := "nvme" + a + "n";
    StemOf(stem, b);
    assert stem[4..|stem| - 1] == a && stem[|stem| - 1] == 'n';
    assert (stem + b)[..4] == "nvme";
    assert stem + b != stem;
  }

  lemma NumberedIff(disk: string)
    ensures NumberedDisk(disk) <==> NumberedForm(disk)
  {
    NvmeIff(disk);
    if HasPrefix(disk, "mmcblk") { assert disk == "mmcblk" + disk[6..]; }
    if HasPrefix(disk, "loop") { assert disk == "loop" + disk[4..]; }
    forall a | Number(a) ensures ("mmcblk" + a)[6..] == a && ("loop" + a)[4..] == a {}
  }

  lemma LettersStem(disk: string, digits: string)
    requires Letters(disk) && Number(digits)
    ensures Stem(disk + digits) == disk && Parent(disk + digits) == Some(disk)
  {
    ParentOfPartition(disk, digits);
    StemOf(disk, digits);
  }

  /** Which names are those of partitions, and of which disk: one of the three numbered forms, a p and a number, or two
      or more small letters and a number. */
  lemma ParentIff(name: string, disk: string)
    ensures Parent(name) == Some(disk) <==>
              || (NumberedForm(disk) && exists digits :: Number(digits) && name == disk + "p" + digits)
              || (|disk| >= 2 && (forall i :: 0 <= i < |disk| ==> 'a' <= disk[i] <= 'z')
                  && exists digits :: Number(digits) && name == disk + digits)
  {
    var stem := Stem(name);
    StemSplits(name);
    NumberedIff(disk);
    if Parent(name) == Some(disk) {
      var digits := name[|stem|..];
      assert Number(digits);
      if stem != disk {
        assert stem == disk + "p";
      }
    }
    if NumberedForm(disk) {
      forall digits | Number(digits) && name == disk + "p" + digits ensures Parent(name) == Some(disk) {
        ParentOfPartition(disk, digits);
      }
    }
    if Letters(disk) {
      forall digits | Number(digits) && name == disk + digits ensures Parent(name) == Some(disk) {
        LettersStem(disk, digits);
      }
    }
  }

  lemma ScsiIsNotIgnored(name: string)
    requires |name| >= 2 && name[0] == 's' && name[1] == 'd'
    ensures !Ignored(name)
  {
    assert "loop"[0] == 'l' && "sr"[1] == 'r' && "ram"[0] == 'r' && "zram"[0] == 'z' && "fd"[0] == 'f'
        && "md"[0] == 'm';
  }

  function TwoPartitions(disk: string): Snapshot {
    Snapshot([Device(disk + "1", "part", "u", 8), Device(disk + "2", "part", "", 1)], [], "lsblk", false)
  }

  lemma SecondPartition(disk: string)
    ensures var devices := DeviceMap(TwoPartitions(disk).devices);
            && devices.Keys == {disk + "1", disk + "2"} && devices[disk + "2"] == Device(disk + "2", "part", "", 1)
  {
    var devices := TwoPartitions(disk).devices;
    assert (disk + "1")[|disk|] != (disk + "2")[|disk|];
    assert devices[..1][..0] == [];
  }

  lemma PartitionIsNoParent(prev: Snapshot, cur: Snapshot)
    requires prev == TwoPartitions("sdb")
    ensures "sdb2" !in RenamedOldParents(prev, cur)
  {
    ParentOfPartition("sdb", "1");
    ParentOfPartition("sdb", "2");
    assert |"sdb"| != |"sdb2"|;
  }

  /** A rename is not always silent.  A partition without a UUID counts as lost when its disk is
      renamed, although another partition of the same disk shows that the disk is still there. */
  lemma PlainPartitionIsReportedLost()
    ensures var prev, cur := TwoPartitions("sdb"), TwoPartitions("sdc");
            Comparable(prev, cur) && DeviceLost("sdb2") in DevicesReport(prev, cur)
  {
    var prev, cur := TwoPartitions("sdb"), TwoPartitions("sdc");
    SecondPartition("sdb");
    SecondPartition("sdc");
    OtherNames();
    ScsiIsNotIgnored("sdb2");
    PartitionIsNoParent(prev, cur);
    LostWithoutUuid(prev, cur, "sdb2");
  }

  lemma OtherNames()
    ensures "sdb" + "2" == "sdb2" && "sdb2" !in {"sdc" + "1", "sdc" + "2"}
  {
    assert ("sdc" + "1")[2] == 'c' && ("sdc" + "2")[2] == 'c' && "sdb2"[2] == 'b';
  }

  lemma LostWithoutUuid(prev: Snapshot, cur: Snapshot, name: string)
    requires Comparable(prev, cur) && name in DeviceMap(prev.devices) && name !in DeviceMap(cur.devices).Keys
    requires DeviceMap(prev.devices)[name].uuid == "" && !Volatile(DeviceMap(prev.devices)[name])
    requires !Ignored(name) && name !in RenamedOldParents(prev, cur)
    ensures DeviceLost(name) in DevicesReport(prev, cur)
  {
    LostIff(prev, cur, name);
  }

  /** And a disk formatted without partitions counts as new, although its own UUID is known; no mount
      point is new here. */
  lemma WholeDiskFilesystemIsReportedNew() returns (prev: Snapshot, cur: Snapshot)
    ensures Comparable(prev, cur)
    ensures prev.devices == [Device("sdb", "disk", "u", 9)] && cur.devices == [Device("sdc", "disk", "u", 9)]
    ensures prev.mounts == cur.mounts && DeviceAdded("sdc") in AdditionsReport(prev, cur)
  {
    prev := Snapshot([Device("sdb", "disk", "u", 9)], [], "lsblk", false);
    cur := Snapshot([Device("sdc", "disk", "u", 9)], [], "lsblk", false);
    ParentOfPartition("sdc", "1");
    ScsiIsNotIgnored("sdc");
    assert "sdc" !in DeviceMap(prev.devices) by {
      assert "sdb"[2] == 'b' && "sdc"[2] == 'c';
    }
    assert IsNewDisk(prev, cur, cur.devices[0]);
    assert NewMountPoints(prev, cur) == {};
    NewIff(prev, cur, "sdc");
  }

  /** Two disks with one UUID-bearing partition each, before and after swapping names. */
  ghost predicate Swapped(prev: Snapshot, cur: Snapshot, a: Device, a1: Device, b: Device, b1: Device) {
    && Comparable(prev, cur)
    && (forall d :: d in prev.devices <==> d in {a, a1, b, b1})
    && (forall c :: c in cur.devices <==>
          c in {b.(name := a.name), b1.(name := a1.name), a.(name := b.name), a1.(name := b1.name)})
    && a.name !in {a1.name, b.name, b1.name} && b.name !in {a1.name, b1.name} && a1.name != b1.name
    && Parent(a.name) == None && Parent(b.name) == None
    && Parent(a1.name) == Some(a.name) && Parent(b1.name) == Some(b.name)
    && a1.uuid != "" && b1.uuid != ""
  }

  function SwapNames(a: Device, a1: Device, b: Device, b1: Device): map<string, string> {
    map[a.name := b.name, a1.name := b1.name, b.name := a.name, b1.name := a1.name]
  }

  function SwapOrigin(a: Device, a1: Device, b: Device, b1: Device): map<string, Device> {
    map[b.name := a, b1.name := a1, a.name := b, a1.name := b1]
  }

  lemma SwapRenames(prev: Snapshot, cur: Snapshot, a: Device, a1: Device, b: Device, b1: Device)
    requires Swapped(prev, cur, a, a1, b, b1)
    ensures var f := SwapNames(a, a1, b, b1);
            && Renamed(a, f) == a.(name := b.name) && Renamed(a1, f) == a1.(name := b1.name)
            && Renamed(b, f) == b.(name := a.name) && Renamed(b1, f) == b1.(name := a1.name)
  {
  }

  lemma SwapKeepsParents(
      prev: Snapshot, cur: Snapshot, a: Device, a1: Device, b: Device, b1: Device, d: Device, e: Device)
    requires Swapped(prev, cur, a, a1, b, b1) && d in {a, a1, b, b1} && e in {a, a1, b, b1}
    ensures var f := SwapNames(a, a1, b, b1);
            && (Renamed(d, f).name == Renamed(e, f).name ==> d.name == e.name)
            && (Parent(Renamed(d, f).name) == Some(Renamed(e, f).name) <==> Parent(d.name) == Some(e.name))
  {
    SwapRenames(prev, cur, a, a1, b, b1);
  }

  lemma SwapIsRenaming(prev: Snapshot, cur: Snapshot, a: Device, a1: Device, b: Device, b1: Device)
    requires Swapped(prev, cur, a, a1, b, b1)
    ensures Renaming(prev, cur, SwapNames(a, a1, b, b1), SwapOrigin(a, a1, b, b1))
    ensures HasUuidPartition(prev, a.name) && HasUuidPartition(prev, b.name)
  {
    var f, origin := SwapNames(a, a1, b, b1), SwapOrigin(a, a1, b, b1);
    SwapRenames(prev, cur, a, a1, b, b1);
    forall d, e | d in prev.devices && e in prev.devices
      ensures Renamed(d, f).name == Renamed(e, f).name ==> d.name == e.name
      ensures Parent(Renamed(d, f).name) == Some(Renamed(e, f).name) <==> Parent(d.name) == Some(e.name)
    {
      SwapKeepsParents(prev, cur, a, a1, b, b1, d, e);
    }
    assert a1 in prev.devices && b1 in prev.devices;
  }

  /** No name is gone and none is new. */
  lemma SwapIsTracked(prev: Snapshot, cur: Snapshot, a: Device, a1: Device, b: Device, b1: Device)
    requires Swapped(prev, cur, a, a1, b, b1)
    ensures forall d :: d in prev.devices ==>
              !LosesTrack(prev, cur, d) && !LooksNew(prev, cur, SwapNames(a, a1, b, b1), d)
  {
    var f := SwapNames(a, a1, b, b1);
    SwapRenames(prev, cur, a, a1, b, b1);
    forall n | n in {a.name, a1.name, b.name, b1.name}
      ensures n in DeviceMap(cur.devices) && n in DeviceMap(prev.devices)
    {
      assert b.(name := a.name) in cur.devices && b1.(name := a1.name) in cur.devices;
      assert a.(name := b.name) in cur.devices && a1.(name := b1.name) in cur.devices;
    }
  }

  /** Two disks that swap names, each with a UUID-bearing partition: none of the four devices is lost or new,
      but a disk under the name of one more than twice its size is reported as having lost its capacity. */
  lemma SwappedDisksAreReportedHalved(
      prev: Snapshot, cur: Snapshot, a: Device, a1: Device, b: Device, b1: Device)
    requires Swapped(prev, cur, a, a1, b, b1) && !Volatile(a) && 0 < 2 * b.sizeKb < a.sizeKb
    ensures CapacityHalved(a.name, a.sizeKb, b.sizeKb) in DevicesReport(prev, cur)
    ensures NothingLost(prev, cur) && NoDiskAdded(prev, cur)
  {
    var f, origin := SwapNames(a, a1, b, b1), SwapOrigin(a, a1, b, b1);
    SwapIsRenaming(prev, cur, a, a1, b, b1);
    assert Renamed(b, f).name == a.name by { SwapRenames(prev, cur, a, a1, b, b1); }
    HalvedIsReported(prev, cur, f, origin, b, a);
    SwapIsTracked(prev, cur, a, a1, b, b1);
    NothingNewIff(prev, cur, f, origin);
    NothingLostIff(prev, cur, f, origin);
  }

  lemma HalvedIsReported(
      prev: Snapshot, cur: Snapshot, f: map<string, string>, origin: map<string, Device>, d: Device, e: Device)
    requires Renaming(prev, cur, f, origin) && d in prev.devices && e in prev.devices && Renamed(d, f).name == e.name
    requires !Volatile(e) && 0 < 2 * d.sizeKb < e.sizeKb
    ensures CapacityHalved(e.name, e.sizeKb, d.sizeKb) in DevicesReport(prev, cur)
  {
    var found := CapacityHalved(e.name, e.sizeKb, d.sizeKb);
    ResizedUnderRenaming(prev, cur, f, origin, d, e);
    assert found.name == e.name && IsResized(prev, cur, found);
    DevicesReported(prev, cur);
  }

  lemma SdbAndSdc()
    ensures "sdb" != "sdc" && "sdb1" != "sdc1" && "sdb" !in {"sdb1", "sdc1"} && "sdc" !in {"sdb1", "sdc1"}
    ensures Parent("sdb") == None && Parent("sdc") == None
    ensures Parent("sdb1") == Some("sdb") && Parent("sdc1") == Some("sdc")
  {
    ParentOfPartition("sdb", "1");
    ParentOfPartition("sdc", "1");
    assert "sdb" + "1" == "sdb1" && "sdc" + "1" == "sdc1";
    assert "sdb"[2] == 'b' && "sdb1"[2] == 'b' && "sdc"[2] == 'c' && "sdc1"[2] == 'c';
    assert |"sdb"| == 3 && |"sdb1"| == 4 && |"sdc"| == 3 && |"sdc1"| == 4;
  }

  /** A case of it: sdb of 8 KB and sdc of 1 KB. */
  lemma SwappedPairIsReportedHalved() returns (prev: Snapshot, cur: Snapshot)
    ensures exists a, a1, b, b1 :: Swapped(prev, cur, a, a1, b, b1)
    ensures CapacityHalved("sdb", 8, 1) in DevicesReport(prev, cur)
  {
    var a, a1 := Device("sdb", "disk", "", 8), Device("sdb1", "part", "u", 8);
    var b, b1 := Device("sdc", "disk", "", 1), Device("sdc1", "part", "v", 1);
    prev := Snapshot([a, a1, b, b1], [], "lsblk", false);
    var swapped := [b.(name := "sdb"), b1.(name := "sdb1"), a.(name := "sdc"), a1.(name := "sdc1")];
    cur := prev.(devices := swapped);
    SdbAndSdc();
    assert Swapped(prev, cur, a, a1, b, b1);
    SwappedDisksAreReportedHalved(prev, cur, a, a1, b, b1);
  }
}
