/** Resource payloads of resource_audit.py: canonical form, structural comparison, plan matching. */
module ResourcePayload {
  import opened Options
  import opened Ordering
  import PyText

  datatype Field = Cpu | Memory | Storage

  /** A missing key and an empty string are the same to every reader of these records. */
  datatype Mount = Mount(mount: string, device: string, fstype: string, sizeKb: int)

  datatype Device = Device(name: string, uuid: string, sizeBytes: int)

  datatype Disk = Disk(mounts: seq<Mount>, devices: seq<Device>)

  /** An empty hardware map stands for an absent 'hardware' key. */
  datatype Payload = Payload(hardware: map<Field, string>, disk: Option<Disk>)

  const FIELDS: seq<Field> := [Cpu, Memory, Storage]

  predicate IsEmpty(p: Payload) {
    p.hardware == map[] && p.disk.None?
  }

  // ---------------- canonical form ----------------

  function CleanText(value: string): (text: string)
    ensures text == "" || text == PyText.Strip(value)
  {
    var text := PyText.Strip(value);
    if text in {"未知", "采集失败"} then "" else text
  }

  lemma CleanIdempotent(value: string)
    ensures CleanText(CleanText(value)) == CleanText(value)
  {
    PyText.StripIdempotent(value);
  }

  function CleanHardware(hardware: map<Field, string>): map<Field, string> {
    map f | f in hardware && CleanText(hardware[f]) != "" :: CleanText(hardware[f])
  }

  function MountKey(m: Mount): string { m.mount }

  function DeviceKey(d: Device): (string, string) { (d.uuid, d.name) }

  function CanonicalDisk(disk: Disk): Disk {
    Disk(SortBy(disk.mounts, MountKey, StringLe), SortBy(disk.devices, DeviceKey, PairLe))
  }

  function Normalize(p: Payload): Payload {
    Payload(CleanHardware(p.hardware), if p.disk.Some? then Some(CanonicalDisk(p.disk.value)) else None)
  }

  lemma CanonicalDiskIdempotent(disk: Disk)
    ensures CanonicalDisk(CanonicalDisk(disk)) == CanonicalDisk(disk)
  {
    StringOrder();
    PairOrder();
    SortSorts(disk.mounts, MountKey, StringLe);
    SortSorts(disk.devices, DeviceKey, PairLe);
    SortOfSorted(CanonicalDisk(disk).mounts, MountKey, StringLe);
    SortOfSorted(CanonicalDisk(disk).devices, DeviceKey, PairLe);
  }

  lemma CleanHardwareIdempotent(hardware: map<Field, string>)
    ensures CleanHardware(CleanHardware(hardware)) == CleanHardware(hardware)
  {
    var once := CleanHardware(hardware);
    forall f | f in once ensures CleanText(once[f]) == once[f] && once[f] != "" {
      CleanIdempotent(hardware[f]);
    }
    CleanAlready(once);
  }

  lemma CleanAlready(hardware: map<Field, string>)
    requires forall f :: f in hardware ==> CleanText(hardware[f]) == hardware[f] && hardware[f] != ""
    ensures CleanHardware(hardware) == hardware
  {
  }

  lemma NormalizeIdempotent(p: Payload)
    ensures Normalize(Normalize(p)) == Normalize(p)
  {
    CleanHardwareIdempotent(p.hardware);
    if p.disk.Some? {
      CanonicalDiskIdempotent(p.disk.value);
    }
  }

  /** The same lists up to order, with records told apart by their sort key. */
  ghost predicate SameUpToOrder(a: Payload, b: Payload) {
    && a.hardware == b.hardware
    && (a.disk.Some? <==> b.disk.Some?)
    && (a.disk.Some? ==>
          && multiset(a.disk.value.mounts) == multiset(b.disk.value.mounts)
          && multiset(a.disk.value.devices) == multiset(b.disk.value.devices)
          && KeysIdentify(a.disk.value.mounts, MountKey)
          && KeysIdentify(a.disk.value.devices, DeviceKey))
  }

  /** The digest of the canonical JSON text, represented by what is digested: equal exactly when the
      canonical payloads are equal, SHA-256 collisions aside. */
  function Fingerprint(p: Payload): Payload {
    Normalize(p)
  }

  /** Listing mounts or devices in another order changes neither the canonical form, nor the
      fingerprint, nor any comparison with another payload. */
  lemma OrderDoesNotMatter(a: Payload, b: Payload, other: Payload)
    requires SameUpToOrder(a, b)
    ensures Normalize(a) == Normalize(b) && Fingerprint(a) == Fingerprint(b)
    ensures Diff(a, other) == Diff(b, other) && Diff(other, a) == Diff(other, b)
  {
    if a.disk.Some? {
      StringOrder();
      PairOrder();
      SortOfPermutation(a.disk.value.mounts, b.disk.value.mounts, MountKey, StringLe);
      SortOfPermutation(a.disk.value.devices, b.disk.value.devices, DeviceKey, PairLe);
    }
  }

  // ---------------- what is known of a hardware value ----------------

  /** The value says something: stripped, it is neither empty nor one of the two placeholders. */
  predicate Informative(value: string) {
    PyText.Strip(value) !in {"", "未知", "采集失败"}
  }

  /** The payload says something about this field. */
  predicate Tells(p: Payload, f: Field) {
    f in p.hardware && Informative(p.hardware[f])
  }

  /** Nothing can be compared with the payload. */
  predicate SaysNothing(p: Payload) {
    p.disk.None? && forall f :: !Tells(p, f)
  }

  /** The canonical form keeps exactly the informative values, stripped, and a payload is empty exactly when it has
      no disk and no informative value. */
  lemma WhatIsKept(p: Payload)
    ensures forall f :: f in Normalize(p).hardware <==> Tells(p, f)
    ensures forall f :: Tells(p, f) ==> Normalize(p).hardware[f] == PyText.Strip(p.hardware[f])
    ensures IsEmpty(Normalize(p)) <==> SaysNothing(p)
  {
    var kept := Normalize(p).hardware;
    if p.disk.None? && !IsEmpty(Normalize(p)) {
      assert kept.Keys != {};
      var f :| f in kept;
      assert Tells(p, f);
    }
  }

  // ---------------- comparison ----------------

  datatype Change =
    | HardwareChanged(field: Field, old_: string, new_: string)
    | MountRemoved(mount: string)
    | MountAdded(mount: string, device: string)
    | MountResized(mount: string, oldKb: int, newKb: int)
    | MountRetyped(mount: string, oldType: string, newType: string)
    | DiskRemoved(label_: string)
    | DiskAdded(label_: string)
    | DiskResized(label_: string, oldBytes: int, newBytes: int)

  /** A dict comprehension: a later record with the same key replaces an earlier one. */
  function MountMap(mounts: seq<Mount>): map<string, Mount> {
    if mounts == [] then map[]
    else MountMap(mounts[..|mounts| - 1])[mounts[|mounts| - 1].mount := mounts[|mounts| - 1]]
  }

  function Identity(d: Device): string {
    if d.uuid != "" then d.uuid else d.name
  }

  function DeviceMap(devices: seq<Device>): map<string, Device> {
    if devices == [] then map[]
    else DeviceMap(devices[..|devices| - 1])[Identity(devices[|devices| - 1]) := devices[|devices| - 1]]
  }

  /** Concatenation of the changes found for each key. */
  function ForEach<K>(keys: seq<K>, changes: K -> seq<Change>): seq<Change> {
    if keys == [] then [] else ForEach(keys[..|keys| - 1], changes) + changes(keys[|keys| - 1])
  }

  lemma {:induction false} ForEachEmpty<K>(keys: seq<K>, changes: K -> seq<Change>)
    ensures ForEach(keys, changes) == [] <==> forall k :: k in keys ==> changes(k) == []
  {
    if keys != [] {
      var n := |keys| - 1;
      ForEachEmpty(keys[..n], changes);
      assert keys == keys[..n] + [keys[n]];
    }
  }

  function Label(devices: map<string, Device>, key: string): string {
    if key in devices && devices[key].name != "" then devices[key].name else key
  }

  function FieldChange(old_: map<Field, string>, new_: map<Field, string>): Field -> seq<Change> {
    f => if f in old_ && f in new_ && old_[f] != "" && new_[f] != "" && old_[f] != new_[f]
         then [HardwareChanged(f, old_[f], new_[f])] else []
  }

  function MountRemoval(): string -> seq<Change> {
    m => [MountRemoved(m)]
  }

  function MountAddition(new_: map<string, Mount>): string -> seq<Change> {
    m => if m in new_ then [MountAdded(m, new_[m].device)] else []
  }

  function MountChange(old_: map<string, Mount>, new_: map<string, Mount>): string -> seq<Change> {
    m => if m !in old_ || m !in new_ then []
         else (if old_[m].sizeKb != new_[m].sizeKb then [MountResized(m, old_[m].sizeKb, new_[m].sizeKb)] else [])
              + (if old_[m].fstype != new_[m].fstype then [MountRetyped(m, old_[m].fstype, new_[m].fstype)] else [])
  }

  function DiskRemoval(old_: map<string, Device>): string -> seq<Change> {
    key => [DiskRemoved(Label(old_, key))]
  }

  function DiskAddition(new_: map<string, Device>): string -> seq<Change> {
    key => [DiskAdded(Label(new_, key))]
  }

  function DiskChange(old_: map<string, Device>, new_: map<string, Device>): string -> seq<Change> {
    key => if key in old_ && key in new_ && old_[key].sizeBytes != new_[key].sizeBytes
           then [DiskResized(Label(new_, key), old_[key].sizeBytes, new_[key].sizeBytes)] else []
  }

  function HardwareDiff(old_: map<Field, string>, new_: map<Field, string>): seq<Change> {
    ForEach(FIELDS, FieldChange(old_, new_))
  }

  function MountDiff(old_: map<string, Mount>, new_: map<string, Mount>): seq<Change> {
    ForEach(SortedNames(old_.Keys - new_.Keys), MountRemoval())
    + ForEach(SortedNames(new_.Keys - old_.Keys), MountAddition(new_))
    + ForEach(SortedNames(old_.Keys * new_.Keys), MountChange(old_, new_))
  }

  function DeviceDiff(old_: map<string, Device>, new_: map<string, Device>): seq<Change> {
    ForEach(SortedNames(old_.Keys - new_.Keys), DiskRemoval(old_))
    + ForEach(SortedNames(new_.Keys - old_.Keys), DiskAddition(new_))
    + ForEach(SortedNames(old_.Keys * new_.Keys), DiskChange(old_, new_))
  }

  function DiskDiff(old_: Disk, new_: Disk): seq<Change> {
    MountDiff(MountMap(old_.mounts), MountMap(new_.mounts))
    + DeviceDiff(DeviceMap(old_.devices), DeviceMap(new_.devices))
  }

  /** What compare_resource_payload reports. */
  function Diff(baseline: Payload, current: Payload): seq<Change> {
    var b, c := Normalize(baseline), Normalize(current);
    HardwareDiff(b.hardware, c.hardware)
    + if b.disk.Some? && c.disk.Some? then DiskDiff(b.disk.value, c.disk.value) else []
  }

  /** Hardware values known on both sides agree. */
  ghost predicate HardwareAgrees(a: map<Field, string>, b: map<Field, string>) {
    forall f :: f in a && f in b ==> a[f] == b[f]
  }

  ghost predicate MountsAgree(a: map<string, Mount>, b: map<string, Mount>) {
    a.Keys == b.Keys && forall m :: m in a ==> a[m].sizeKb == b[m].sizeKb && a[m].fstype == b[m].fstype
  }

  ghost predicate DevicesAgree(a: map<string, Device>, b: map<string, Device>) {
    a.Keys == b.Keys && forall key :: key in a ==> a[key].sizeBytes == b[key].sizeBytes
  }

  /** Devices are compared in canonical order, so that of two records with one identity the same
      one counts on both sides. */
  ghost predicate DisksAgree(a: Disk, b: Disk) {
    && MountsAgree(MountMap(a.mounts), MountMap(b.mounts))
    && DevicesAgree(DeviceMap(CanonicalDisk(a).devices), DeviceMap(CanonicalDisk(b).devices))
  }

  /** What both payloads tell of the hardware is the same. */
  predicate ToldAlike(a: Payload, b: Payload) {
    forall f :: Tells(a, f) && Tells(b, f) ==> PyText.Strip(a.hardware[f]) == PyText.Strip(b.hardware[f])
  }

  /** The two payloads describe the same resources as far as both know them. */
  ghost predicate Agree(a: Payload, b: Payload) {
    && ToldAlike(a, b)
    && (a.disk.Some? && b.disk.Some? ==> DisksAgree(a.disk.value, b.disk.value))
  }

  lemma HardwareDiffEmpty(a: map<Field, string>, b: map<Field, string>)
    requires (forall f :: f in a ==> a[f] != "") && (forall f :: f in b ==> b[f] != "")
    ensures HardwareDiff(a, b) == [] <==> HardwareAgrees(a, b)
  {
    ForEachEmpty(FIELDS, FieldChange(a, b));
    forall f: Field ensures f in FIELDS {
      assert f == FIELDS[0] || f == FIELDS[1] || f == FIELDS[2];
    }
    if HardwareDiff(a, b) == [] {
      forall f | f in a && f in b ensures a[f] == b[f] {
        assert FieldChange(a, b)(f) == [];
      }
    }
  }

  lemma NoRemovals(a: map<string, Mount>, b: map<string, Mount>)
    ensures ForEach(SortedNames(a.Keys - b.Keys), MountRemoval()) == [] <==> a.Keys <= b.Keys
  {
    ForEachEmpty(SortedNames(a.Keys - b.Keys), MountRemoval());
    forall m ensures m in SortedNames(a.Keys - b.Keys) <==> m in a.Keys && m !in b.Keys {}
    assert forall m :: MountRemoval()(m) != [];
  }

  lemma NoAdditions(a: map<string, Mount>, b: map<string, Mount>)
    ensures ForEach(SortedNames(b.Keys - a.Keys), MountAddition(b)) == [] <==> b.Keys <= a.Keys
  {
    ForEachEmpty(SortedNames(b.Keys - a.Keys), MountAddition(b));
    forall m ensures m in SortedNames(b.Keys - a.Keys) <==> m in b.Keys && m !in a.Keys {}
    assert forall m :: m in b ==> MountAddition(b)(m) != [];
  }

  lemma NoMountChanges(a: map<string, Mount>, b: map<string, Mount>)
    ensures ForEach(SortedNames(a.Keys * b.Keys), MountChange(a, b)) == []
            <==> forall m :: m in a && m in b ==> a[m].sizeKb == b[m].sizeKb && a[m].fstype == b[m].fstype
  {
    ForEachEmpty(SortedNames(a.Keys * b.Keys), MountChange(a, b));
    if ForEach(SortedNames(a.Keys * b.Keys), MountChange(a, b)) == [] {
      forall m | m in a && m in b ensures a[m].sizeKb == b[m].sizeKb && a[m].fstype == b[m].fstype {
        assert m in a.Keys * b.Keys;
        assert MountChange(a, b)(m) == [];
      }
    }
  }

  lemma MountDiffEmpty(a: map<string, Mount>, b: map<string, Mount>)
    ensures MountDiff(a, b) == [] <==> MountsAgree(a, b)
  {
    NoRemovals(a, b);
    NoAdditions(a, b);
    NoMountChanges(a, b);
  }

  lemma NoDisksRemoved(a: map<string, Device>, b: map<string, Device>)
    ensures ForEach(SortedNames(a.Keys - b.Keys), DiskRemoval(a)) == [] <==> a.Keys <= b.Keys
  {
    ForEachEmpty(SortedNames(a.Keys - b.Keys), DiskRemoval(a));
    forall key ensures key in SortedNames(a.Keys - b.Keys) <==> key in a.Keys && key !in b.Keys {}
    assert forall key :: key in a ==> DiskRemoval(a)(key) != [];
  }

  lemma NoDisksAdded(a: map<string, Device>, b: map<string, Device>)
    ensures ForEach(SortedNames(b.Keys - a.Keys), DiskAddition(b)) == [] <==> b.Keys <= a.Keys
  {
    ForEachEmpty(SortedNames(b.Keys - a.Keys), DiskAddition(b));
    forall key ensures key in SortedNames(b.Keys - a.Keys) <==> key in b.Keys && key !in a.Keys {}
    assert forall key :: key in b ==> DiskAddition(b)(key) != [];
  }

  lemma NoDiskChanges(a: map<string, Device>, b: map<string, Device>)
    ensures ForEach(SortedNames(a.Keys * b.Keys), DiskChange(a, b)) == []
            <==> forall key :: key in a && key in b ==> a[key].sizeBytes == b[key].sizeBytes
  {
    ForEachEmpty(SortedNames(a.Keys * b.Keys), DiskChange(a, b));
    if ForEach(SortedNames(a.Keys * b.Keys), DiskChange(a, b)) == [] {
      forall key | key in a && key in b ensures a[key].sizeBytes == b[key].sizeBytes {
        assert key in a.Keys * b.Keys;
        assert DiskChange(a, b)(key) == [];
      }
    }
  }

  lemma DeviceDiffEmpty(a: map<string, Device>, b: map<string, Device>)
    ensures DeviceDiff(a, b) == [] <==> DevicesAgree(a, b)
  {
    NoDisksRemoved(a, b);
    NoDisksAdded(a, b);
    NoDiskChanges(a, b);
    DevicesAgreeIff(
      ForEach(SortedNames(a.Keys - b.Keys), DiskRemoval(a)), ForEach(SortedNames(b.Keys - a.Keys), DiskAddition(b)),
      ForEach(SortedNames(a.Keys * b.Keys), DiskChange(a, b)), a, b);
  }

  lemma DevicesAgreeIff(
      removed: seq<Change>, added: seq<Change>, changed: seq<Change>, a: map<string, Device>, b: map<string, Device>)
    requires removed == [] <==> a.Keys <= b.Keys
    requires added == [] <==> b.Keys <= a.Keys
    requires changed == [] <==> forall key :: key in a && key in b ==> a[key].sizeBytes == b[key].sizeBytes
    ensures removed + added + changed == [] <==> DevicesAgree(a, b)
  {
  }

  // Stable sorting keeps, for every key, which record comes last.

  lemma {:induction false} LastMount(mounts: seq<Mount>, m: string)
    ensures var same := Having(mounts, MountKey, m);
            && (m in MountMap(mounts) <==> same != [])
            && (same != [] ==> MountMap(mounts)[m] == same[|same| - 1])
  {
    if mounts != [] {
      var n := |mounts| - 1;
      LastMount(mounts[..n], m);
      HavingAppend(mounts[..n], mounts[n], MountKey, m);
      assert mounts == mounts[..n] + [mounts[n]];
    }
  }

  lemma {:induction false} HavingAppend<T, K>(s: seq<T>, x: T, key: T -> K, k: K)
    ensures Having(s + [x], key, k) == Having(s, key, k) + (if key(x) == k then [x] else [])
  {
    if s == [] {
      assert s + [x] == [x];
    } else {
      HavingAppend(s[1..], x, key, k);
      assert (s + [x])[1..] == s[1..] + [x];
    }
  }

  lemma MountMapOfSorted(mounts: seq<Mount>)
    ensures MountMap(SortBy(mounts, MountKey, StringLe)) == MountMap(mounts)
  {
    var sorted := SortBy(mounts, MountKey, StringLe);
    StringOrder();
    forall m
      ensures m in MountMap(sorted) <==> m in MountMap(mounts)
      ensures m in MountMap(mounts) ==> MountMap(sorted)[m] == MountMap(mounts)[m]
    {
      SortIsStable(mounts, MountKey, StringLe, m);
      LastMount(mounts, m);
      LastMount(sorted, m);
    }
  }

  /** The comparison is sound and complete: it reports nothing exactly when the hardware values known
      on both sides agree and, if both payloads have disks, the mounts and the physical disks agree. */
  lemma NoChangesIffAgree(a: Payload, b: Payload)
    ensures Diff(a, b) == [] <==> Agree(a, b)
  {
    ToldAlikeIff(a, b);
    if a.disk.Some? && b.disk.Some? { DisksAgreeIff(a.disk.value, b.disk.value); }
  }

  lemma ToldAlikeIff(a: Payload, b: Payload)
    ensures HardwareDiff(CleanHardware(a.hardware), CleanHardware(b.hardware)) == [] <==> ToldAlike(a, b)
  {
    HardwareDiffEmpty(CleanHardware(a.hardware), CleanHardware(b.hardware));
    WhatIsKept(a);
    WhatIsKept(b);
  }

  lemma DisksAgreeIff(a: Disk, b: Disk)
    ensures DiskDiff(CanonicalDisk(a), CanonicalDisk(b)) == [] <==> DisksAgree(a, b)
  {
    var da, db := CanonicalDisk(a), CanonicalDisk(b);
    MountMapOfSorted(a.mounts);
    MountMapOfSorted(b.mounts);
    MountDiffEmpty(MountMap(da.mounts), MountMap(db.mounts));
    DeviceDiffEmpty(DeviceMap(da.devices), DeviceMap(db.devices));
  }

  lemma MountsAgreeSymmetric(a: map<string, Mount>, b: map<string, Mount>)
    requires MountsAgree(a, b)
    ensures MountsAgree(b, a)
  {
  }

  lemma DevicesAgreeSymmetric(a: map<string, Device>, b: map<string, Device>)
    requires DevicesAgree(a, b)
    ensures DevicesAgree(b, a)
  {
  }

  lemma AgreeSymmetric(a: Payload, b: Payload)
    requires Agree(a, b)
    ensures Agree(b, a)
  {
    if a.disk.Some? && b.disk.Some? {
      MountsAgreeSymmetric(MountMap(a.disk.value.mounts), MountMap(b.disk.value.mounts));
      DevicesAgreeSymmetric(DeviceMap(CanonicalDisk(a.disk.value).devices),
          DeviceMap(CanonicalDisk(b.disk.value).devices));
    }
  }

  lemma AgreesWithItself(a: Payload)
    ensures Agree(a, a)
  {
  }

  lemma NoChangesFromItself(a: Payload)
    ensures Diff(a, a) == []
  {
    AgreesWithItself(a);
    NoChangesIffAgree(a, a);
  }

  /** One payload differs from another exactly when that one differs from it. */
  lemma NoChangesSymmetric(a: Payload, b: Payload)
    ensures Diff(a, b) == [] <==> Diff(b, a) == []
  {
    NoChangesIffAgree(a, b);
    NoChangesIffAgree(b, a);
    if Agree(a, b) {
      AgreeSymmetric(a, b);
    } else if Agree(b, a) {
      AgreeSymmetric(b, a);
    }
  }

  // ---------------- which records count ----------------

  /** Two records are of one disk: the UUID tells, and the name where there is none. */
  predicate SameDisk(d: Device, key: string) {
    (d.uuid != "" && d.uuid == key) || (d.uuid == "" && d.name == key)
  }

  /** Of the records of one mount point the last counts. */
  predicate LastRecord(mounts: seq<Mount>, i: nat, m: string) {
    i < |mounts| && mounts[i].mount == m && forall j :: i < j < |mounts| ==> mounts[j].mount != m
  }

  /** Of the records of one disk the one with the greatest UUID and name counts, and the last of those. */
  predicate CountsFor(devices: seq<Device>, i: nat, key: string) {
    && i < |devices| && SameDisk(devices[i], key)
    && forall j :: 0 <= j < |devices| && SameDisk(devices[j], key) ==>
         PairLe((devices[j].uuid, devices[j].name), (devices[i].uuid, devices[i].name))
         && ((devices[j].uuid, devices[j].name) == (devices[i].uuid, devices[i].name) ==> j <= i)
  }

  lemma {:induction false} LastDevice(devices: seq<Device>, key: string)
    ensures var same := Having(devices, Identity, key);
            && (key in DeviceMap(devices) <==> same != [])
            && (same != [] ==> DeviceMap(devices)[key] == same[|same| - 1])
  {
    if devices != [] {
      var n := |devices| - 1;
      LastDevice(devices[..n], key);
      HavingAppend(devices[..n], devices[n], Identity, key);
      assert devices == devices[..n] + [devices[n]];
    }
  }

  /** The last element with this key, if there is one. */
  lemma {:induction false} LastHaving<T, K>(s: seq<T>, key: T -> K, k: K) returns (i: int)
    ensures if Having(s, key, k) == [] then i == -1 && forall j :: 0 <= j < |s| ==> key(s[j]) != k
            else
              && 0 <= i < |s| && key(s[i]) == k && s[i] == Having(s, key, k)[|Having(s, key, k)| - 1]
              && forall j :: i < j < |s| ==> key(s[j]) != k
  {
    i := -1;
    if s != [] {
      var n := |s| - 1;
      HavingAppend(s[..n], s[n], key, k);
      assert s == s[..n] + [s[n]];
      i := LastHaving(s[..n], key, k);
      if key(s[n]) == k { i := n; }
      assert forall j :: 0 <= j < n ==> s[..n][j] == s[j];
    }
  }

  /** A mount point is found exactly when it has a record, and what is found is its last one. */
  lemma WhichMountCounts(mounts: seq<Mount>, m: string)
    ensures m in MountMap(mounts) <==> exists i :: 0 <= i < |mounts| && mounts[i].mount == m
    ensures m in MountMap(mounts) ==> exists i: nat :: LastRecord(mounts, i, m) && MountMap(mounts)[m] == mounts[i]
  {
    LastMount(mounts, m);
    var i := LastHaving(mounts, MountKey, m);
    if i >= 0 {
      assert LastRecord(mounts, i, m);
    }
  }

  lemma {:induction false} SortedPairs<T(!new), K>(s: seq<T>, key: T -> K, le: (K, K) -> bool)
    requires SortedBy(s, key, le)
    ensures forall i, j :: 0 <= i < j < |s| ==> le(key(s[i]), key(s[j]))
  {
    if s != [] {
      SortedPairs(s[1..], key, le);
      forall i, j | 0 <= i < j < |s| ensures le(key(s[i]), key(s[j])) {
        assert s[j] == s[1..][j - 1] && (i > 0 ==> s[i] == s[1..][i - 1]);
      }
    }
  }

  /** The canonical form lists the same mounts by mount point and the same devices by UUID and name. */
  lemma CanonicalOrder(disk: Disk)
    ensures var d := CanonicalDisk(disk);
            && multiset(d.mounts) == multiset(disk.mounts) && multiset(d.devices) == multiset(disk.devices)
            && (forall i, j :: 0 <= i < j < |d.mounts| ==> StringLe(d.mounts[i].mount, d.mounts[j].mount))
            && (forall i, j :: 0 <= i < j < |d.devices| ==>
                  PairLe((d.devices[i].uuid, d.devices[i].name), (d.devices[j].uuid, d.devices[j].name)))
  {
    var d := CanonicalDisk(disk);
    StringOrder();
    PairOrder();
    SortSorts(disk.mounts, MountKey, StringLe);
    SortSorts(disk.devices, DeviceKey, PairLe);
    SortedPairs(d.mounts, MountKey, StringLe);
    SortedPairs(d.devices, DeviceKey, PairLe);
    assert forall i :: 0 <= i < |d.mounts| ==> MountKey(d.mounts[i]) == d.mounts[i].mount;
    assert forall i :: 0 <= i < |d.devices| ==> DeviceKey(d.devices[i]) == (d.devices[i].uuid, d.devices[i].name);
  }

  lemma IdentityIs(d: Device, key: string)
    ensures Identity(d) == key <==> SameDisk(d, key)
  {
  }

  /** The last record of a disk in canonical order is the last of those that share its UUID and name. */
  lemma LastOfItsKey(disk: Disk, key: string, k: nat) returns (i: nat)
    requires var sorted := CanonicalDisk(disk).devices;
             && k < |sorted| && Identity(sorted[k]) == key
             && forall j :: k < j < |sorted| ==> Identity(sorted[j]) != key
    ensures i < |disk.devices| && disk.devices[i] == CanonicalDisk(disk).devices[k]
    ensures forall j :: i < j < |disk.devices| ==> DeviceKey(disk.devices[j]) != DeviceKey(disk.devices[i])
  {
    var sorted := CanonicalDisk(disk).devices;
    var x := sorted[k];
    PairOrder();
    SortIsStable(disk.devices, DeviceKey, PairLe, DeviceKey(x));
    var l := LastHaving(sorted, DeviceKey, DeviceKey(x));
    assert l == k by {
      assert l >= k;
      assert DeviceKey(sorted[l]) == DeviceKey(x) && Identity(sorted[l]) == Identity(x);
    }
    i := LastHaving(disk.devices, DeviceKey, DeviceKey(x));
  }

  /** The last record of a disk in canonical order is the one that counts. */
  lemma LastCounts(disk: Disk, key: string, k: nat) returns (i: nat)
    requires var sorted := CanonicalDisk(disk).devices;
             && k < |sorted| && Identity(sorted[k]) == key
             && forall j :: k < j < |sorted| ==> Identity(sorted[j]) != key
    ensures CountsFor(disk.devices, i, key) && disk.devices[i] == CanonicalDisk(disk).devices[k]
  {
    var sorted := CanonicalDisk(disk).devices;
    CanonicalOrder(disk);
    SameElements(sorted, disk.devices);
    i := LastOfItsKey(disk, key, k);
    forall j | 0 <= j < |disk.devices| && SameDisk(disk.devices[j], key)
      ensures PairLe(DeviceKey(disk.devices[j]), DeviceKey(disk.devices[i]))
      ensures DeviceKey(disk.devices[j]) == DeviceKey(disk.devices[i]) ==> j <= i
    {
      IdentityIs(disk.devices[j], key);
      assert disk.devices[j] in sorted;
      var l :| 0 <= l < |sorted| && sorted[l] == disk.devices[j];
      assert l <= k;
      PairOrder();
    }
    IdentityIs(disk.devices[i], key);
  }

  /** A disk is found exactly when it has a record, and what is found is the record that counts. */
  lemma WhichDiskCounts(disk: Disk, key: string)
    ensures var found := DeviceMap(CanonicalDisk(disk).devices);
            && (key in found <==> exists i :: 0 <= i < |disk.devices| && SameDisk(disk.devices[i], key))
            && (key in found ==> exists i: nat :: CountsFor(disk.devices, i, key) && found[key] == disk.devices[i])
  {
    var sorted := CanonicalDisk(disk).devices;
    LastDevice(sorted, key);
    var k := LastHaving(sorted, Identity, key);
    if k >= 0 {
      var i := LastCounts(disk, key, k);
    } else {
      SameElements(sorted, disk.devices);
      forall i | 0 <= i < |disk.devices| ensures !SameDisk(disk.devices[i], key) {
        IdentityIs(disk.devices[i], key);
        assert disk.devices[i] in sorted;
      }
    }
  }

  // ---------------- what each reported change says ----------------

  lemma {:induction false} ForEachContains<K>(keys: seq<K>, changes: K -> seq<Change>, c: Change)
    ensures c in ForEach(keys, changes) <==> exists k :: k in keys && c in changes(k)
  {
    if keys != [] {
      var n := |keys| - 1;
      ForEachContains(keys[..n], changes, c);
      assert keys == keys[..n] + [keys[n]];
    }
  }

  ghost predicate HardwareFact(c: Change, a: map<Field, string>, b: map<Field, string>) {
    c.HardwareChanged? && c.field in a && c.field in b && a[c.field] == c.old_ && b[c.field] == c.new_
        && c.old_ != c.new_
  }

  ghost predicate MountFact(c: Change, a: map<string, Mount>, b: map<string, Mount>) {
    match c
    case MountRemoved(m) => m in a && m !in b
    case MountAdded(m, device) => m !in a && m in b && b[m].device == device
    case MountResized(m, old_, new_) => m in a && m in b && a[m].sizeKb == old_ != new_ == b[m].sizeKb
    case MountRetyped(m, old_, new_) => m in a && m in b && a[m].fstype == old_ && b[m].fstype == new_ && old_ != new_
    case _ => false
  }

  /** A disk is reported by its name, or by what identifies it where it has none. */
  predicate Names(label_: string, d: Device, key: string) {
    if d.name == "" then label_ == key else label_ == d.name
  }

  ghost predicate DiskFact(c: Change, a: map<string, Device>, b: map<string, Device>) {
    match c
    case DiskRemoved(label_) => exists key :: key in a && key !in b && Names(label_, a[key], key)
    case DiskAdded(label_) => exists key :: key !in a && key in b && Names(label_, b[key], key)
    case DiskResized(label_, old_, new_) =>
      exists key :: key in a && key in b && Names(label_, b[key], key) && a[key].sizeBytes == old_
          && b[key].sizeBytes == new_ && old_ != new_
    case _ => false
  }

  lemma HardwareReports(a: map<Field, string>, b: map<Field, string>, c: Change)
    requires (forall f :: f in a ==> a[f] != "") && (forall f :: f in b ==> b[f] != "")
    ensures c in HardwareDiff(a, b) <==> HardwareFact(c, a, b)
  {
    ForEachContains(FIELDS, FieldChange(a, b), c);
    forall f: Field ensures f in FIELDS {
      assert f == FIELDS[0] || f == FIELDS[1] || f == FIELDS[2];
    }
    if HardwareFact(c, a, b) {
      assert c in FieldChange(a, b)(c.field);
    }
  }

  lemma RemovalsReported(a: map<string, Mount>, b: map<string, Mount>, c: Change)
    ensures c in ForEach(SortedNames(a.Keys - b.Keys), MountRemoval()) <==> c.MountRemoved? && MountFact(c, a, b)
  {
    ForEachContains(SortedNames(a.Keys - b.Keys), MountRemoval(), c);
    if c.MountRemoved? && MountFact(c, a, b) { assert c in MountRemoval()(c.mount); }
  }

  lemma AdditionsReported(a: map<string, Mount>, b: map<string, Mount>, c: Change)
    ensures c in ForEach(SortedNames(b.Keys - a.Keys), MountAddition(b)) <==> c.MountAdded? && MountFact(c, a, b)
  {
    ForEachContains(SortedNames(b.Keys - a.Keys), MountAddition(b), c);
    if c.MountAdded? && MountFact(c, a, b) { assert c in MountAddition(b)(c.mount); }
  }

  lemma ChangesReported(a: map<string, Mount>, b: map<string, Mount>, c: Change)
    ensures c in ForEach(SortedNames(a.Keys * b.Keys), MountChange(a, b))
            <==> (c.MountResized? || c.MountRetyped?) && MountFact(c, a, b)
  {
    ForEachContains(SortedNames(a.Keys * b.Keys), MountChange(a, b), c);
    forall m | m in a && m in b
      ensures c in MountChange(a, b)(m) <==> (c.MountResized? || c.MountRetyped?) && c.mount == m && MountFact(c, a, b)
    {
      ChangesOfMount(a, b, m, c);
    }
    if (c.MountResized? || c.MountRetyped?) && MountFact(c, a, b) {
      assert c.mount in SortedNames(a.Keys * b.Keys) && c in MountChange(a, b)(c.mount);
    }
  }

  lemma ChangesOfMount(a: map<string, Mount>, b: map<string, Mount>, m: string, c: Change)
    requires m in a && m in b
    ensures c in MountChange(a, b)(m) <==> (c.MountResized? || c.MountRetyped?) && c.mount == m && MountFact(c, a, b)
  {
  }

  lemma MountReports(a: map<string, Mount>, b: map<string, Mount>, c: Change)
    ensures c in MountDiff(a, b) <==> MountFact(c, a, b)
  {
    RemovalsReported(a, b, c);
    AdditionsReported(a, b, c);
    ChangesReported(a, b, c);
  }

  lemma RemovedDisksReported(a: map<string, Device>, b: map<string, Device>, c: Change)
    ensures c in ForEach(SortedNames(a.Keys - b.Keys), DiskRemoval(a)) <==> c.DiskRemoved? && DiskFact(c, a, b)
  {
    ForEachContains(SortedNames(a.Keys - b.Keys), DiskRemoval(a), c);
    if c.DiskRemoved? && DiskFact(c, a, b) {
      var key :| key in a && key !in b && Names(c.label_, a[key], key);
      assert key in a.Keys - b.Keys && c in DiskRemoval(a)(key);
    }
  }

  lemma AddedDisksReported(a: map<string, Device>, b: map<string, Device>, c: Change)
    ensures c in ForEach(SortedNames(b.Keys - a.Keys), DiskAddition(b)) <==> c.DiskAdded? && DiskFact(c, a, b)
  {
    ForEachContains(SortedNames(b.Keys - a.Keys), DiskAddition(b), c);
    if c.DiskAdded? && DiskFact(c, a, b) {
      var key :| key !in a && key in b && Names(c.label_, b[key], key);
      assert key in b.Keys - a.Keys && c in DiskAddition(b)(key);
    }
  }

  lemma ResizedDisksReported(a: map<string, Device>, b: map<string, Device>, c: Change)
    ensures c in ForEach(SortedNames(a.Keys * b.Keys), DiskChange(a, b)) <==> c.DiskResized? && DiskFact(c, a, b)
  {
    ForEachContains(SortedNames(a.Keys * b.Keys), DiskChange(a, b), c);
    if c.DiskResized? && DiskFact(c, a, b) {
      var key :| key in a && key in b && Names(c.label_, b[key], key) && a[key].sizeBytes == c.oldBytes
          && b[key].sizeBytes == c.newBytes;
      assert key in a.Keys * b.Keys && c in DiskChange(a, b)(key);
    }
  }

  lemma DiskReports(a: map<string, Device>, b: map<string, Device>, c: Change)
    ensures c in DeviceDiff(a, b) <==> DiskFact(c, a, b)
  {
    RemovedDisksReported(a, b, c);
    AddedDisksReported(a, b, c);
    ResizedDisksReported(a, b, c);
  }

  /** The change says of a field that both payloads tell it, with these different values. */
  ghost predicate HardwareTold(c: Change, a: Payload, b: Payload) {
    && c.HardwareChanged? && Tells(a, c.field) && Tells(b, c.field)
    && c.old_ == PyText.Strip(a.hardware[c.field]) && c.new_ == PyText.Strip(b.hardware[c.field]) && c.old_ != c.new_
  }

  /** The change is a fact about the two payloads: of the hardware, or, if both have disks, of the records that count
      for their mount points and for their physical disks. */
  ghost predicate Fact(c: Change, a: Payload, b: Payload) {
    || HardwareTold(c, a, b)
    || (a.disk.Some? && b.disk.Some?
        && (MountFact(c, MountMap(a.disk.value.mounts), MountMap(b.disk.value.mounts))
            || DiskFact(c, DeviceMap(CanonicalDisk(a.disk.value).devices),
                        DeviceMap(CanonicalDisk(b.disk.value).devices))))
  }

  /** A change is reported exactly when it is a fact about the two payloads. */
  lemma ReportedIffFact(a: Payload, b: Payload, c: Change)
    ensures c in Diff(a, b) <==> Fact(c, a, b)
  {
    WhatIsKept(a);
    WhatIsKept(b);
    HardwareReports(CleanHardware(a.hardware), CleanHardware(b.hardware), c);
    if a.disk.Some? && b.disk.Some? {
      var da, db := CanonicalDisk(a.disk.value), CanonicalDisk(b.disk.value);
      MountMapOfSorted(a.disk.value.mounts);
      MountMapOfSorted(b.disk.value.mounts);
      MountReports(MountMap(da.mounts), MountMap(db.mounts), c);
      DiskReports(DeviceMap(da.devices), DeviceMap(db.devices), c);
    }
  }

  // ---------------- planned changes ----------------

  datatype ExpectedMount = ExpectedMount(mount: string, sizeGb: Option<real>)

  /** The 'disk_expectation' entry of a plan: absent, null, or criteria. */
  datatype DiskExpectation =
    | Unstated
    | Anything
    | Criteria(deviceCount: Option<int>, mountCount: Option<int>, mounts: seq<ExpectedMount>)

  datatype Expected = Expected(hardware: map<Field, string>, disks: DiskExpectation, disk: Option<Disk>)

  function Known(hardware: map<Field, string>, f: Field): string {
    if f in hardware then CleanText(hardware[f]) else ""
  }

  predicate HardwareMatches(expected: map<Field, string>, current: map<Field, string>) {
    forall f :: f in expected && CleanText(expected[f]) != "" ==> Known(current, f) == CleanText(expected[f])
  }

  /** Within 2 percent, and in any case within 1 GB. */
  predicate SizeMatches(e: ExpectedMount, current: map<string, Mount>) {
    e.mount == "" || e.sizeGb.None? ||
    var actual := (if e.mount in current then current[e.mount].sizeKb else 0) as real / 1024.0 / 1024.0;
    var gap := if actual >= e.sizeGb.value then actual - e.sizeGb.value else e.sizeGb.value - actual;
    var slack := e.sizeGb.value * 0.02;
    gap <= if slack > 1.0 then slack else 1.0
  }

  predicate CriteriaMatch(disks: DiskExpectation, current: Disk)
    requires disks.Criteria?
  {
    var mounts := MountMap(current.mounts);
    && (disks.deviceCount.Some? ==> |current.devices| == disks.deviceCount.value)
    && (disks.mountCount.Some? ==> |current.mounts| == disks.mountCount.value)
    && (disks.mounts != [] ==> mounts.Keys == set e | e in disks.mounts && e.mount != "" :: e.mount)
    && (forall e :: e in disks.mounts ==> SizeMatches(e, mounts))
  }

  /** What payload_matches answers. */
  predicate Matches(expected: Expected, payload: Payload) {
    var current := Normalize(payload);
    && HardwareMatches(expected.hardware, current.hardware)
    && match expected.disks
       case Anything => true
       case Criteria(_, _, _) => CriteriaMatch(expected.disks, current.disk.GetOr(Disk([], [])))
       case Unstated => Normalize(Payload(expected.hardware, expected.disk)) == current
  }

  /** A plan that spells out the whole configuration matches it exactly, in whatever order it lists it. */
  lemma FullPlanMatchesExactly(expected: Expected, payload: Payload)
    requires expected.disks == Unstated
    ensures Matches(expected, payload) <==> Normalize(Payload(expected.hardware, expected.disk)) == Normalize(payload)
  {
    var wanted := CleanHardware(expected.hardware);
    forall f | f in expected.hardware
      ensures CleanText(CleanText(expected.hardware[f])) == CleanText(expected.hardware[f])
    {
      CleanIdempotent(expected.hardware[f]);
    }
    if wanted == Normalize(payload).hardware {
      forall f | f in expected.hardware && CleanText(expected.hardware[f]) != ""
        ensures Known(wanted, f) == CleanText(expected.hardware[f])
      {
        assert f in wanted;
      }
    }
  }

  /** Every hardware value the plan states is the observed one. */
  predicate ExpectsHardware(expected: Expected, payload: Payload) {
    forall f :: f in expected.hardware && Informative(expected.hardware[f]) ==>
      Tells(payload, f) && PyText.Strip(payload.hardware[f]) == PyText.Strip(expected.hardware[f])
  }

  /** A size in KB is within 1 GB, or within 2 percent, of one in GB. */
  predicate Near(kb: int, gb: real) {
    var target := gb * 1048576.0;
    -1048576.0 <= kb as real - target <= 1048576.0 || -target <= 50.0 * (kb as real - target) <= target
  }

  predicate HasMount(mounts: seq<Mount>, m: string) {
    exists i :: 0 <= i < |mounts| && mounts[i].mount == m
  }

  predicate Listed(listed: seq<ExpectedMount>, m: string) {
    m != "" && exists e :: e in listed && e.mount == m
  }

  /** The stated size, if there is one, is near that of the last record of the mount point, or near nothing if it has
      none. */
  ghost predicate SizeFits(e: ExpectedMount, mounts: seq<Mount>) {
    e.mount != "" && e.sizeGb.Some? ==>
      && (forall i: nat :: LastRecord(mounts, i, e.mount) ==> Near(mounts[i].sizeKb, e.sizeGb.value))
      && (!HasMount(mounts, e.mount) ==> Near(0, e.sizeGb.value))
  }

  /** The number of devices and of mounts are the stated ones, the mount points are exactly those listed, if any are,
      and the stated sizes fit. */
  ghost predicate ExpectsDisks(disks: DiskExpectation, observed: Disk)
    requires disks.Criteria?
  {
    && (disks.deviceCount.Some? ==> |observed.devices| == disks.deviceCount.value)
    && (disks.mountCount.Some? ==> |observed.mounts| == disks.mountCount.value)
    && (disks.mounts != [] ==> forall m :: HasMount(observed.mounts, m) <==> Listed(disks.mounts, m))
    && (forall e :: e in disks.mounts ==> SizeFits(e, observed.mounts))
  }

  /** What a plan expects: all of a configuration that it spells out, or what its criteria state, or no more than the
      hardware values it names. */
  ghost predicate Expects(expected: Expected, payload: Payload) {
    match expected.disks
    case Unstated => Normalize(Payload(expected.hardware, expected.disk)) == Normalize(payload)
    case Anything => ExpectsHardware(expected, payload)
    case Criteria(_, _, _) =>
      ExpectsHardware(expected, payload) && ExpectsDisks(expected.disks, payload.disk.GetOr(Disk([], [])))
  }

  lemma KnownIs(payload: Payload, f: Field)
    ensures Known(Normalize(payload).hardware, f) == if Tells(payload, f) then PyText.Strip(payload.hardware[f]) else ""
  {
    WhatIsKept(payload);
    if Tells(payload, f) { CleanIdempotent(payload.hardware[f]); }
  }

  lemma FieldMatchesIff(expected: Expected, payload: Payload, f: Field)
    requires f in expected.hardware
    ensures (CleanText(expected.hardware[f]) != "" ==>
               Known(Normalize(payload).hardware, f) == CleanText(expected.hardware[f]))
            <==> (Informative(expected.hardware[f]) ==>
                    Tells(payload, f) && PyText.Strip(payload.hardware[f]) == PyText.Strip(expected.hardware[f]))
  {
    KnownIs(payload, f);
  }

  lemma HardwareMatchesIff(expected: Expected, payload: Payload)
    ensures HardwareMatches(expected.hardware, Normalize(payload).hardware) <==> ExpectsHardware(expected, payload)
  {
    forall f | f in expected.hardware
      ensures (CleanText(expected.hardware[f]) != "" ==>
                 Known(Normalize(payload).hardware, f) == CleanText(expected.hardware[f]))
              <==> (Informative(expected.hardware[f]) ==>
                      Tells(payload, f) && PyText.Strip(payload.hardware[f]) == PyText.Strip(expected.hardware[f]))
    {
      FieldMatchesIff(expected, payload, f);
    }
  }

  lemma NearIff(e: ExpectedMount, mounts: map<string, Mount>)
    requires e.mount != "" && e.sizeGb.Some?
    ensures SizeMatches(e, mounts) <==> Near(if e.mount in mounts then mounts[e.mount].sizeKb else 0, e.sizeGb.value)
  {
    var kb := if e.mount in mounts then mounts[e.mount].sizeKb else 0;
    var actual := kb as real / 1024.0 / 1024.0;
    assert actual * 1048576.0 == kb as real;
  }

  lemma SizeMatchesIff(e: ExpectedMount, mounts: seq<Mount>)
    ensures SizeMatches(e, MountMap(mounts)) <==> SizeFits(e, mounts)
  {
    if e.mount != "" && e.sizeGb.Some? {
      WhichMountCounts(mounts, e.mount);
      NearIff(e, MountMap(mounts));
    }
  }

  lemma MountNamesIff(listed: seq<ExpectedMount>, mounts: seq<Mount>)
    ensures MountMap(mounts).Keys == (set e | e in listed && e.mount != "" :: e.mount)
            <==> forall m :: HasMount(mounts, m) <==> Listed(listed, m)
  {
    var stated := set e | e in listed && e.mount != "" :: e.mount;
    forall m ensures m in MountMap(mounts) <==> HasMount(mounts, m) { WhichMountCounts(mounts, m); }
    forall m ensures m in stated <==> Listed(listed, m) {}
    if MountMap(mounts).Keys == stated {
      forall m ensures HasMount(mounts, m) <==> Listed(listed, m) {
        assert m in MountMap(mounts).Keys <==> m in stated;
      }
    }
  }

  lemma CriteriaMatchIff(disks: DiskExpectation, observed: Disk)
    requires disks.Criteria?
    ensures CriteriaMatch(disks, CanonicalDisk(observed)) <==> ExpectsDisks(disks, observed)
  {
    var current := CanonicalDisk(observed);
    assert |current.mounts| == |observed.mounts| && |current.devices| == |observed.devices| by {
      SameElements(current.mounts, observed.mounts);
      SameElements(current.devices, observed.devices);
    }
    assert MountMap(current.mounts) == MountMap(observed.mounts) by { MountMapOfSorted(observed.mounts); }
    MountNamesIff(disks.mounts, observed.mounts);
    forall e ensures SizeMatches(e, MountMap(observed.mounts)) <==> SizeFits(e, observed.mounts) {
      SizeMatchesIff(e, observed.mounts);
    }
  }

  lemma MatchesCanonical(expected: Expected, payload: Payload)
    ensures Matches(expected, Normalize(payload)) <==> Matches(expected, payload)
  {
    NormalizeIdempotent(payload);
  }

  /** A plan matches exactly the payloads that it expects. */
  lemma MatchesIffExpects(expected: Expected, payload: Payload)
    ensures Matches(expected, payload) <==> Expects(expected, payload)
  {
    HardwareMatchesIff(expected, payload);
    match expected.disks
    case Unstated => FullPlanMatchesExactly(expected, payload);
    case Anything =>
    case Criteria(_, _, _) =>
      var observed := payload.disk.GetOr(Disk([], []));
      assert Normalize(payload).disk.GetOr(Disk([], [])) == CanonicalDisk(observed);
      CriteriaMatchIff(expected.disks, observed);
  }

  // ---------------- the comparison as resource_audit.py runs it ----------------

  /** The loop `for key in keys: changes.append(...)`. */
  method AppendForEach<K>(changes: seq<Change>, keys: seq<K>, found: K -> seq<Change>) returns (result: seq<Change>)
    ensures result == changes + ForEach(keys, found)
  {
    result := changes;
    for i := 0 to |keys|
      invariant result == changes + ForEach(keys[..i], found)
    {
      result := result + found(keys[i]);
      assert keys[..i + 1][..i] == keys[..i];
    }
    assert keys[..|keys|] == keys;
  }

  method CompareMounts(old_: map<string, Mount>, new_: map<string, Mount>) returns (changes: seq<Change>)
    ensures changes == MountDiff(old_, new_)
  {
    var removed, added := SortedNames(old_.Keys - new_.Keys), SortedNames(new_.Keys - old_.Keys);
    var kept := SortedNames(old_.Keys * new_.Keys);
    changes := AppendForEach([], removed, MountRemoval());
    assert changes == ForEach(removed, MountRemoval());
    changes := AppendForEach(changes, added, MountAddition(new_));
    changes := AppendForEach(changes, kept, MountChange(old_, new_));
  }

  method CompareDevices(old_: map<string, Device>, new_: map<string, Device>) returns (changes: seq<Change>)
    ensures changes == DeviceDiff(old_, new_)
  {
    var removed, added := SortedNames(old_.Keys - new_.Keys), SortedNames(new_.Keys - old_.Keys);
    var kept := SortedNames(old_.Keys * new_.Keys);
    changes := AppendForEach([], removed, DiskRemoval(old_));
    assert changes == ForEach(removed, DiskRemoval(old_));
    changes := AppendForEach(changes, added, DiskAddition(new_));
    changes := AppendForEach(changes, kept, DiskChange(old_, new_));
  }

  method CompareDisks(old_: Disk, new_: Disk) returns (changes: seq<Change>)
    ensures changes == DiskDiff(old_, new_)
  {
    changes := CompareMounts(MountMap(old_.mounts), MountMap(new_.mounts));
    var found := CompareDevices(DeviceMap(old_.devices), DeviceMap(new_.devices));
    changes := changes + found;
  }

  method CompareResourcePayload(baseline: Payload, current: Payload) returns (changes: seq<Change>)
    ensures changes == Diff(baseline, current)
    ensures changes == [] <==> Agree(baseline, current)
    ensures forall c :: c in changes <==> Fact(c, baseline, current)
  {
    var b, c := Normalize(baseline), Normalize(current);
    var hardware := AppendForEach([], FIELDS, FieldChange(b.hardware, c.hardware));
    assert hardware == HardwareDiff(b.hardware, c.hardware);
    var disks := [];
    if b.disk.Some? && c.disk.Some? {
      disks := CompareDisks(b.disk.value, c.disk.value);
    }
    changes := hardware + disks;
    assert changes == Diff(baseline, current);
    NoChangesIffAgree(baseline, current);
    forall c ensures c in changes <==> Fact(c, baseline, current) { ReportedIffFact(baseline, current, c); }
  }
}
