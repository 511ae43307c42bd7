/** The relational form of snapshots, the ledger of SSH binding versions and the
    revocation overlay.

    Tables are maps keyed as the schema keys them. A transaction works on a copy of the
    database and replaces it at the end, so it happens as a whole or not at all. */
module SnapshotStore {
  import opened Common
  import opened Identity
  import opened Snapshots
  import ShellBinding
  import Sorting

  const KEPT_SNAPSHOTS := 5

  datatype Header = Header(schema: string, fabric: string, directoryVersion: nat, grantVersion: nat, capturedAt: int, committed: bool)
  datatype DeviceRow = DeviceRow(alias: string, previousAliases: seq<string>, displayName: string, state: string)
  datatype CapabilityRow = CapabilityRow(device: string, alias: string, previousAliases: seq<string>, displayName: string,
                                         kind: string, state: string, features: seq<string>)
  datatype GrantRow = GrantRow(subject: string, capability: string, state: string, validUntil: Option<int>)

  /** Rows keyed by snapshot and name. */
  type Rows<V> = map<(nat, string), V>

  datatype Entry = Entry(version: nat, signature: Signature<string>)
  type Ledger = map<Target, Entry>

  datatype Versions = Versions(directory: nat, grant: nat)

  datatype Database<P> = Database(
    nextID: nat, snapshots: map<nat, Header>,
    devices: Rows<DeviceRow>, keys: Rows<Key>,
    capabilities: Rows<CapabilityRow>, bindings: Rows<Binding>, profiles: Rows<Profile>,
    grants: Rows<GrantRow>,
    active: Option<nat>, ledger: Ledger,
    control: Option<P>, versions: Option<Versions>, revocations: map<string, Versions>, clock: Option<int>)

  // ---- tables -----------------------------------------------------------------------

  function Under<V>(table: Rows<V>, id: nat): map<string, V> {
    map k | k in table && k.0 == id :: k.1 := table[k]
  }

  function Cascade<V>(table: Rows<V>, kept: set<nat>): Rows<V> {
    map k | k in table && k.0 in kept :: table[k]
  }

  /** All rows of one snapshot. */
  datatype Slice = Slice(devices: map<string, DeviceRow>, keys: map<string, Key>, capabilities: map<string, CapabilityRow>,
                         bindings: map<string, Binding>, profiles: map<string, Profile>, grants: map<string, GrantRow>)

  function SliceAt<P>(db: Database<P>, id: nat): Slice {
    Slice(Under(db.devices, id), Under(db.keys, id), Under(db.capabilities, id), Under(db.bindings, id), Under(db.profiles, id),
          Under(db.grants, id))
  }

  lemma InsertUnder<V>(table: Rows<V>, id: nat, name: string, row: V)
    ensures Under(table[(id, name) := row], id) == Under(table, id)[name := row]
    ensures forall other | other != id :: Under(table[(id, name) := row], other) == Under(table, other)
  {
    var longer := table[(id, name) := row];
    forall other | other != id
      ensures Under(longer, other) == Under(table, other)
    {
      assert forall n :: (other, n) in longer <==> (other, n) in table;
    }
    assert forall n :: (id, n) in longer <==> (id, n) in table || n == name;
  }

  lemma CascadeUnder<V>(table: Rows<V>, kept: set<nat>, id: nat)
    ensures Under(Cascade(table, kept), id) == if id in kept then Under(table, id) else map[]
  {
    assert forall n :: (id, n) in Cascade(table, kept) <==> (id, n) in table && id in kept;
  }

  /** The rows a list becomes; items for which `row` is None have none. */
  function Table<T, V>(items: seq<T>, name: T -> string, row: T -> Option<V>): map<string, V> {
    if items == [] then map[]
    else
      var last := items[|items| - 1];
      var rest := Table(items[..|items| - 1], name, row);
      if row(last).Some? then rest[name(last) := row(last).value] else rest
  }

  predicate UniqueNames<T>(items: seq<T>, name: T -> string) {
    forall i, j | 0 <= i < j < |items| :: name(items[i]) != name(items[j])
  }

  lemma {:induction false} TableNames<T, V>(items: seq<T>, name: T -> string, row: T -> Option<V>)
    ensures forall n | n in Table(items, name, row) :: exists i | 0 <= i < |items| :: name(items[i]) == n
  {
    if items != [] {
      var init := items[..|items| - 1];
      TableNames(init, name, row);
      forall n | n in Table(items, name, row)
        ensures exists i | 0 <= i < |items| :: name(items[i]) == n
      {
        if n in Table(init, name, row) {
          var i :| 0 <= i < |init| && name(init[i]) == n;
          assert name(items[i]) == n;
        } else {
          assert name(items[|items| - 1]) == n;
        }
      }
    }
  }

  /** With unique names the table answers exactly what the list says. */
  lemma {:induction false} TableFinds<T, V>(items: seq<T>, name: T -> string, row: T -> Option<V>, k: nat)
    requires UniqueNames(items, name) && k < |items|
    ensures name(items[k]) in Table(items, name, row) <==> row(items[k]).Some?
    ensures row(items[k]).Some? ==> Table(items, name, row)[name(items[k])] == row(items[k]).value
  {
    var init := items[..|items| - 1];
    if k < |init| {
      TableFinds(init, name, row, k);
    } else {
      TableNames(init, name, row);
    }
  }

  function DeviceName(d: Device): string { d.id }
  function DeviceRowOf(d: Device): Option<DeviceRow> { Some(DeviceRow(d.alias, d.previousAliases, d.displayName, d.state)) }
  function KeyRowOf(d: Device): Option<Key> { if d.key != "" then Some(d.key) else None }
  function CapabilityName(c: Capability): string { c.id }
  function CapabilityRowOf(c: Capability): Option<CapabilityRow> {
    Some(CapabilityRow(c.device, c.alias, c.previousAliases, c.displayName, c.kind, c.state, c.features))
  }
  function BindingRowOf(c: Capability): Option<Binding> { c.binding }
  function ProfileRowOf(c: Capability): Option<Profile> { c.profile }
  function GrantName(g: Grant): string { g.id }
  function GrantRowOf(g: Grant): Option<GrantRow> { Some(GrantRow(g.subject, g.capability, g.state, g.validUntil)) }

  function HeaderOf(s: Snapshot): Header {
    Header(s.schema, s.fabric, s.directoryVersion, s.grantVersion, s.capturedAt, true)
  }

  function SliceOf(s: Snapshot): Slice {
    Slice(Table(s.devices, DeviceName, DeviceRowOf), Table(s.devices, DeviceName, KeyRowOf),
          Table(s.capabilities, CapabilityName, CapabilityRowOf), Table(s.capabilities, CapabilityName, BindingRowOf),
          Table(s.capabilities, CapabilityName, ProfileRowOf), Table(s.grants, GrantName, GrantRowOf))
  }

  /** The snapshot is stored, as committed, under this ID. */
  predicate Stored<P>(db: Database<P>, id: nat, s: Snapshot) {
    id in db.snapshots && db.snapshots[id] == HeaderOf(s) && SliceAt(db, id) == SliceOf(s)
  }

  // ---- loading ------------------------------------------------------------------------

  /** The left joins: a Device row with its key, if there is one. */
  function DeviceFrom(rows: Slice, name: string): Device
    requires name in rows.devices
  {
    var row := rows.devices[name];
    Device(name, row.alias, row.previousAliases, row.displayName, row.state, if name in rows.keys then rows.keys[name] else "")
  }

  function CapabilityFrom(rows: Slice, name: string): Capability
    requires name in rows.capabilities
  {
    var row := rows.capabilities[name];
    Capability(name, row.device, row.alias, row.previousAliases, row.displayName, row.kind, row.state, row.features,
               if name in rows.bindings then Some(rows.bindings[name]) else None,
               if name in rows.profiles then Some(rows.profiles[name]) else None)
  }

  function GrantFrom(rows: Slice, name: string): Grant
    requires name in rows.grants
  {
    var row := rows.grants[name];
    Grant(name, row.subject, row.capability, row.state, row.validUntil)
  }

  /** Listed by name in ascending order. */
  predicate Ascending<T>(items: seq<T>, name: T -> string) {
    forall i, j | 0 <= i < j < |items| :: Before(name(items[i]), name(items[j]))
  }

  predicate DevicesListed(rows: Slice, devices: seq<Device>) {
    && Ascending(devices, DeviceName)
    && (forall d | d in devices :: d.id in rows.devices && d == DeviceFrom(rows, d.id))
    && (forall n | n in rows.devices :: DeviceFrom(rows, n) in devices)
  }

  predicate CapabilitiesListed(rows: Slice, capabilities: seq<Capability>) {
    && Ascending(capabilities, CapabilityName)
    && (forall c | c in capabilities :: c.id in rows.capabilities && c == CapabilityFrom(rows, c.id))
    && (forall n | n in rows.capabilities :: CapabilityFrom(rows, n) in capabilities)
  }

  predicate GrantsListed(rows: Slice, grants: seq<Grant>) {
    && Ascending(grants, GrantName)
    && (forall g | g in grants :: g.id in rows.grants && g == GrantFrom(rows, g.id))
    && (forall n | n in rows.grants :: GrantFrom(rows, n) in grants)
  }

  /** What reading the rows of one snapshot yields. */
  predicate IsLoad<P>(db: Database<P>, id: nat, s: Snapshot) {
    && id in db.snapshots && db.snapshots[id] == HeaderOf(s)
    && DevicesListed(SliceAt(db, id), s.devices)
    && CapabilitiesListed(SliceAt(db, id), s.capabilities)
    && GrantsListed(SliceAt(db, id), s.grants)
  }

  method SortedNames(names: set<string>) returns (sorted: seq<string>)
    ensures forall i, j | 0 <= i < j < |sorted| :: Before(sorted[i], sorted[j])
    ensures forall n :: n in sorted <==> n in names
  {
    var listed := [];
    var remaining := names;
    while remaining != {}
      invariant remaining <= names && NoDup(listed)
      invariant forall n :: n in listed <==> n in names && n !in remaining
      decreases |remaining|
    {
      var name :| name in remaining;
      listed, remaining := listed + [name], remaining - {name};
    }
    Sorting.BeforeIsOrder();
    Sorting.OrderIsWeak(Before);
    sorted := Sorting.SortedCopy(Before, listed);
    assert forall n :: n in sorted <==> n in listed by {
      assert forall n :: n in sorted <==> n in multiset(sorted);
      assert forall n :: n in listed <==> n in multiset(listed);
    }
    NoDupIsStrict(listed, sorted);
  }

  lemma NoDupIsStrict(listed: seq<string>, sorted: seq<string>)
    requires NoDup(listed) && multiset(sorted) == multiset(listed) && Sorting.Sorted(Before, sorted)
    ensures forall i, j | 0 <= i < j < |sorted| :: Before(sorted[i], sorted[j])
  {
    NoDupPermuted(listed, sorted);
    forall i, j | 0 <= i < j < |sorted|
      ensures Before(sorted[i], sorted[j])
    {
      BeforeTotal(sorted[i], sorted[j]);
    }
  }

  method ListDevices(rows: Slice) returns (devices: seq<Device>)
    ensures DevicesListed(rows, devices)
  {
    var names := SortedNames(rows.devices.Keys);
    devices := [];
    for i := 0 to |names|
      invariant |devices| == i
      invariant forall k | 0 <= k < i :: names[k] in names && devices[k] == DeviceFrom(rows, names[k])
    {
      assert names[i] in names;
      devices := devices + [DeviceFrom(rows, names[i])];
    }
    forall n | n in rows.devices
      ensures DeviceFrom(rows, n) in devices
    {
      var k :| 0 <= k < |names| && names[k] == n;
      assert devices[k] == DeviceFrom(rows, n);
    }
  }

  method ListCapabilities(rows: Slice) returns (capabilities: seq<Capability>)
    ensures CapabilitiesListed(rows, capabilities)
  {
    var names := SortedNames(rows.capabilities.Keys);
    capabilities := [];
    for i := 0 to |names|
      invariant |capabilities| == i
      invariant forall k | 0 <= k < i :: names[k] in names && capabilities[k] == CapabilityFrom(rows, names[k])
    {
      assert names[i] in names;
      capabilities := capabilities + [CapabilityFrom(rows, names[i])];
    }
    forall n | n in rows.capabilities
      ensures CapabilityFrom(rows, n) in capabilities
    {
      var k :| 0 <= k < |names| && names[k] == n;
      assert capabilities[k] == CapabilityFrom(rows, n);
    }
  }

  method ListGrants(rows: Slice) returns (grants: seq<Grant>)
    ensures GrantsListed(rows, grants)
  {
    var names := SortedNames(rows.grants.Keys);
    grants := [];
    for i := 0 to |names|
      invariant |grants| == i
      invariant forall k | 0 <= k < i :: names[k] in names && grants[k] == GrantFrom(rows, names[k])
    {
      assert names[i] in names;
      grants := grants + [GrantFrom(rows, names[i])];
    }
    forall n | n in rows.grants
      ensures GrantFrom(rows, n) in grants
    {
      var k :| 0 <= k < |names| && names[k] == n;
      assert grants[k] == GrantFrom(rows, n);
    }
  }

  // ---- commit and load back -----------------------------------------------------------

  lemma AscendingHasNoDuplicates<T>(items: seq<T>, name: T -> string)
    requires Ascending(items, name)
    ensures NoDup(items)
  {
    forall i, j | 0 <= i < j < |items|
      ensures items[i] != items[j]
    {
      BeforeAsymmetric(name(items[i]), name(items[j]));
    }
  }

  lemma DeviceJoin(devices: seq<Device>, rows: Slice, k: nat)
    requires UniqueDevices(devices) && k < |devices|
    requires rows.devices == Table(devices, DeviceName, DeviceRowOf) && rows.keys == Table(devices, DeviceName, KeyRowOf)
    ensures devices[k].id in rows.devices && DeviceFrom(rows, devices[k].id) == devices[k]
  {
    TableFinds(devices, DeviceName, DeviceRowOf, k);
    TableFinds(devices, DeviceName, KeyRowOf, k);
  }

  lemma CapabilityJoin(capabilities: seq<Capability>, rows: Slice, k: nat)
    requires UniqueCapabilities(capabilities) && k < |capabilities|
    requires rows.capabilities == Table(capabilities, CapabilityName, CapabilityRowOf)
    requires rows.bindings == Table(capabilities, CapabilityName, BindingRowOf)
    requires rows.profiles == Table(capabilities, CapabilityName, ProfileRowOf)
    ensures capabilities[k].id in rows.capabilities && CapabilityFrom(rows, capabilities[k].id) == capabilities[k]
  {
    TableFinds(capabilities, CapabilityName, CapabilityRowOf, k);
    TableFinds(capabilities, CapabilityName, BindingRowOf, k);
    TableFinds(capabilities, CapabilityName, ProfileRowOf, k);
  }

  lemma GrantJoin(grants: seq<Grant>, rows: Slice, k: nat)
    requires UniqueGrants(grants) && k < |grants| && rows.grants == Table(grants, GrantName, GrantRowOf)
    ensures grants[k].id in rows.grants && GrantFrom(rows, grants[k].id) == grants[k]
  {
    TableFinds(grants, GrantName, GrantRowOf, k);
  }

  lemma DevicesRoundTrip(s: Snapshot, devices: seq<Device>)
    requires UniqueDevices(s.devices) && DevicesListed(SliceOf(s), devices)
    ensures multiset(devices) == multiset(s.devices)
  {
    hide DeviceFrom, Table;
    var rows := SliceOf(s);
    forall k | 0 <= k < |s.devices|
      ensures s.devices[k] in devices
    {
      DeviceJoin(s.devices, rows, k);
    }
    forall d | d in devices
      ensures d in s.devices
    {
      TableNames(s.devices, DeviceName, DeviceRowOf);
      var k :| 0 <= k < |s.devices| && DeviceName(s.devices[k]) == d.id;
      DeviceJoin(s.devices, rows, k);
    }
    AscendingHasNoDuplicates(devices, DeviceName);
    SameItems(devices, s.devices);
  }

  lemma CapabilitiesRoundTrip(s: Snapshot, capabilities: seq<Capability>)
    requires UniqueCapabilities(s.capabilities) && CapabilitiesListed(SliceOf(s), capabilities)
    ensures multiset(capabilities) == multiset(s.capabilities)
  {
    hide CapabilityFrom, Table;
    var rows := SliceOf(s);
    forall k | 0 <= k < |s.capabilities|
      ensures s.capabilities[k] in capabilities
    {
      CapabilityJoin(s.capabilities, rows, k);
    }
    forall c | c in capabilities
      ensures c in s.capabilities
    {
      TableNames(s.capabilities, CapabilityName, CapabilityRowOf);
      var k :| 0 <= k < |s.capabilities| && CapabilityName(s.capabilities[k]) == c.id;
      CapabilityJoin(s.capabilities, rows, k);
    }
    AscendingHasNoDuplicates(capabilities, CapabilityName);
    SameItems(capabilities, s.capabilities);
  }

  lemma GrantsRoundTrip(s: Snapshot, grants: seq<Grant>)
    requires UniqueGrants(s.grants) && GrantsListed(SliceOf(s), grants)
    ensures multiset(grants) == multiset(s.grants)
  {
    hide GrantFrom, Table;
    var rows := SliceOf(s);
    forall k | 0 <= k < |s.grants|
      ensures s.grants[k] in grants
    {
      GrantJoin(s.grants, rows, k);
    }
    forall g | g in grants
      ensures g in s.grants
    {
      TableNames(s.grants, GrantName, GrantRowOf);
      var k :| 0 <= k < |s.grants| && GrantName(s.grants[k]) == g.id;
      GrantJoin(s.grants, rows, k);
    }
    AscendingHasNoDuplicates(grants, GrantName);
    SameItems(grants, s.grants);
  }

  /** The same snapshot with its lists ordered by ID. */
  predicate SortedCopyOf(s: Snapshot, t: Snapshot) {
    && t.schema == s.schema && t.fabric == s.fabric && t.directoryVersion == s.directoryVersion
    && t.grantVersion == s.grantVersion && t.capturedAt == s.capturedAt
    && multiset(t.devices) == multiset(s.devices) && (forall i, j | 0 <= i < j < |t.devices| :: Before(t.devices[i].id, t.devices[j].id))
    && multiset(t.capabilities) == multiset(s.capabilities)
    && (forall i, j | 0 <= i < j < |t.capabilities| :: Before(t.capabilities[i].id, t.capabilities[j].id))
    && multiset(t.grants) == multiset(s.grants) && forall i, j | 0 <= i < j < |t.grants| :: Before(t.grants[i].id, t.grants[j].id)
  }

  /** Reading back what a commit stored gives the committed lists, sorted: no join
      drops, duplicates or mixes up a row. */
  lemma StoredLoadsBack<P>(db: Database<P>, id: nat, s: Snapshot, t: Snapshot)
    requires Valid(s) && Stored(db, id, s) && IsLoad(db, id, t)
    ensures SortedCopyOf(s, t)
  {
    hide SliceOf, SliceAt, DevicesListed, CapabilitiesListed, GrantsListed;
    DevicesRoundTrip(s, t.devices);
    CapabilitiesRoundTrip(s, t.capabilities);
    GrantsRoundTrip(s, t.grants);
    ListedAscends(SliceOf(s), t);
  }

  lemma ListedAscends(rows: Slice, t: Snapshot)
    requires DevicesListed(rows, t.devices) && CapabilitiesListed(rows, t.capabilities) && GrantsListed(rows, t.grants)
    ensures Ascending(t.devices, DeviceName) && Ascending(t.capabilities, CapabilityName) && Ascending(t.grants, GrantName)
  {
  }

  // ---- the control overlay --------------------------------------------------------------

  function Larger(a: nat, b: nat): nat { if a < b then b else a }

  function Raised(stored: Option<Versions>, directory: nat, grant: nat): Versions {
    if stored.Some? then Versions(Larger(stored.value.directory, directory), Larger(stored.value.grant, grant)) else Versions(directory, grant)
  }

  /** The higher one of two numbers, the second of which may be missing. */
  predicate IsHigher(high: nat, a: nat, b: Option<nat>) {
    && a <= high && (b.Some? ==> b.value <= high)
    && (high == a || b == Some(high))
  }

  /** `after` are the highest directory and grant version of what was there and what came. */
  predicate HighestOf(before: Option<Versions>, directory: nat, grant: nat, after: Versions) {
    && IsHigher(after.directory, directory, if before.Some? then Some(before.value.directory) else None)
    && IsHigher(after.grant, grant, if before.Some? then Some(before.value.grant) else None)
  }

  lemma RaisedIsHighest(stored: Option<Versions>, directory: nat, grant: nat)
    ensures HighestOf(stored, directory, grant, Raised(stored, directory, grant))
  {
  }

  function MarkDevice(revoked: set<string>, d: Device): Device {
    if d.id in revoked then d.(state := REVOKED) else d
  }

  function MarkGrant(revoked: set<string>, g: Grant): Grant {
    if g.subject in revoked then g.(state := REVOKED) else g
  }

  /** `t` is `s` with the control versions and the revocations laid over it. */
  predicate Overlaid(versions: Option<Versions>, revoked: set<string>, s: Snapshot, t: Snapshot) {
    && t == s.(directoryVersion := Raised(versions, s.directoryVersion, s.grantVersion).directory,
               grantVersion := Raised(versions, s.directoryVersion, s.grantVersion).grant, devices := t.devices, grants := t.grants)
    && |t.devices| == |s.devices| && (forall i | 0 <= i < |s.devices| :: t.devices[i] == MarkDevice(revoked, s.devices[i]))
    && |t.grants| == |s.grants| && (forall i | 0 <= i < |s.grants| :: t.grants[i] == MarkGrant(revoked, s.grants[i]))
  }

  /** What a loaded snapshot shows: the rows as they were read, but no version lower than the
      control versions, and exactly the revoked Devices and their grants marked revoked. */
  predicate ShownOver(versions: Option<Versions>, revoked: set<string>, raw: Snapshot, s: Snapshot) {
    && HighestOf(versions, raw.directoryVersion, raw.grantVersion, Versions(s.directoryVersion, s.grantVersion))
    && s.schema == raw.schema && s.fabric == raw.fabric && s.capturedAt == raw.capturedAt && s.capabilities == raw.capabilities
    && |s.devices| == |raw.devices| && |s.grants| == |raw.grants|
    && (forall i | 0 <= i < |s.devices| ::
          && s.devices[i].(state := raw.devices[i].state) == raw.devices[i]
          && s.devices[i].state == if raw.devices[i].id in revoked then "revoked" else raw.devices[i].state)
    && forall i | 0 <= i < |s.grants| ::
         && s.grants[i].(state := raw.grants[i].state) == raw.grants[i]
         && s.grants[i].state == if raw.grants[i].subject in revoked then "revoked" else raw.grants[i].state
  }

  lemma OverlayMeans(versions: Option<Versions>, revoked: set<string>, s: Snapshot, t: Snapshot)
    requires Overlaid(versions, revoked, s, t)
    ensures ShownOver(versions, revoked, s, t)
  {
    RaisedIsHighest(versions, s.directoryVersion, s.grantVersion);
  }

  /** Whatever a snapshot was committed with, no revoked Device and none of its grants
      shows as anything else. */
  lemma RevokedAreMarked(versions: Option<Versions>, revoked: set<string>, s: Snapshot, t: Snapshot)
    requires Overlaid(versions, revoked, s, t)
    ensures forall d | d in t.devices && d.id in revoked :: d.state == REVOKED
    ensures forall g | g in t.grants && g.subject in revoked :: g.state == REVOKED
  {
  }

  lemma MarkedFrom(versions: Option<Versions>, revoked: set<string>, s: Snapshot, t: Snapshot, d: Device) returns (e: Device)
    requires Overlaid(versions, revoked, s, t) && d in t.devices
    ensures e in s.devices && d == MarkDevice(revoked, e)
  {
    var i :| 0 <= i < |t.devices| && t.devices[i] == d;
    e := s.devices[i];
  }

  lemma OverlayKeepsReferences(versions: Option<Versions>, revoked: set<string>, s: Snapshot, t: Snapshot, id: string)
    requires Overlaid(versions, revoked, s, t) && HasDevice(s.devices, id)
    ensures HasDevice(t.devices, id)
  {
    var i :| 0 <= i < |s.devices| && s.devices[i].id == id;
    assert t.devices[i] in t.devices && t.devices[i].id == id;
  }

  lemma OverlayKeepsDevices(versions: Option<Versions>, revoked: set<string>, s: Snapshot, t: Snapshot)
    requires Overlaid(versions, revoked, s, t) && ValidDevices(s.devices)
    ensures ValidDevices(t.devices)
  {
    hide ValidDevice;
    forall d | d in t.devices
      ensures ValidDevice(d)
    {
      var e := MarkedFrom(versions, revoked, s, t, d);
      MarkingKeepsDevice(revoked, e);
    }
    assert forall i | 0 <= i < |s.devices| :: t.devices[i].id == s.devices[i].id;
  }

  lemma MarkingKeepsDevice(revoked: set<string>, d: Device)
    ensures ValidDevice(MarkDevice(revoked, d)) == ValidDevice(d)
  {
  }

  lemma OverlayKeepsCapabilities(versions: Option<Versions>, revoked: set<string>, s: Snapshot, t: Snapshot)
    requires Overlaid(versions, revoked, s, t) && ValidCapabilities(s.capabilities, s.devices, s.fabric)
    ensures ValidCapabilities(t.capabilities, t.devices, t.fabric)
  {
    hide Overlaid, ValidCapability, ShellBinding.Verify, HasDevice;
    OverlayKeepsLists(versions, revoked, s, t);
    forall c | c in t.capabilities
      ensures HasDevice(t.devices, c.device)
    {
      OverlayKeepsReferences(versions, revoked, s, t, c.device);
    }
    forall c, d | c in t.capabilities && d in t.devices && d.id == c.device
      ensures BindingHolds(c, d, t.fabric)
    {
      var e := MarkedFrom(versions, revoked, s, t, d);
      assert BindingHolds(c, e, s.fabric);
    }
  }

  lemma OverlayKeepsLists(versions: Option<Versions>, revoked: set<string>, s: Snapshot, t: Snapshot)
    requires Overlaid(versions, revoked, s, t)
    ensures t.capabilities == s.capabilities && t.fabric == s.fabric && (ValidHeader(s) ==> ValidHeader(t))
  {
  }

  lemma OverlayKeepsGrants(versions: Option<Versions>, revoked: set<string>, s: Snapshot, t: Snapshot)
    requires Overlaid(versions, revoked, s, t) && ValidGrants(s.grants, s.devices, s.capabilities)
    ensures ValidGrants(t.grants, t.devices, t.capabilities)
  {
    hide ValidHeader, HasDevice, HasCapability;
    assert forall i | 0 <= i < |s.grants| :: t.grants[i].id == s.grants[i].id;
    forall g | g in t.grants
      ensures ValidGrant(g) && HasDevice(t.devices, g.subject) && HasCapability(t.capabilities, g.capability)
    {
      var i :| 0 <= i < |t.grants| && t.grants[i] == g;
      assert s.grants[i] in s.grants;
      OverlayKeepsReferences(versions, revoked, s, t, s.grants[i].subject);
    }
  }

  /** Laying the overlay over a valid snapshot leaves it valid. */
  lemma OverlayKeepsValidity(versions: Option<Versions>, revoked: set<string>, s: Snapshot, t: Snapshot)
    requires Overlaid(versions, revoked, s, t) && Valid(s)
    ensures Valid(t)
  {
    hide Overlaid, ValidDevices, ValidCapabilities, ValidGrants, ValidHeader, Raised;
    OverlayKeepsLists(versions, revoked, s, t);
    OverlayKeepsDevices(versions, revoked, s, t);
    OverlayKeepsCapabilities(versions, revoked, s, t);
    OverlayKeepsGrants(versions, revoked, s, t);
  }

  lemma SortingKeepsValidity(s: Snapshot, t: Snapshot)
    requires Valid(s) && SortedCopyOf(s, t)
    ensures Valid(t)
  {
    hide ValidDevice, ValidCapability, ValidGrant, BindingHolds;
    SameMembers(s.devices, t.devices);
    SameMembers(s.capabilities, t.capabilities);
    SameMembers(s.grants, t.grants);
    AscendingIsUnique(t.devices, DeviceName);
    AscendingIsUnique(t.capabilities, CapabilityName);
    AscendingIsUnique(t.grants, GrantName);
    assert forall i | 0 <= i < |t.devices| :: DeviceName(t.devices[i]) == t.devices[i].id;
    assert forall i | 0 <= i < |t.capabilities| :: CapabilityName(t.capabilities[i]) == t.capabilities[i].id;
    assert forall i | 0 <= i < |t.grants| :: GrantName(t.grants[i]) == t.grants[i].id;
    assert ValidHeader(t);
  }

  lemma AscendingIsUnique<T>(items: seq<T>, name: T -> string)
    requires Ascending(items, name)
    ensures UniqueNames(items, name)
  {
    forall i, j | 0 <= i < j < |items|
      ensures name(items[i]) != name(items[j])
    {
      BeforeAsymmetric(name(items[i]), name(items[j]));
    }
  }

  // ---- the ledger of binding versions -----------------------------------------------------

  function SubjectOf(fabric: string, c: Capability): Target {
    Target(fabric, c.device, c.id)
  }

  function EntryOf(b: Binding): Entry {
    Entry(b.version, b.signature)
  }

  /** Neither an older version nor the recorded version with another signature. */
  predicate Acceptable(ledger: Ledger, fabric: string, c: Capability) {
    c.binding.Some? && SubjectOf(fabric, c) in ledger ==>
      var recorded := ledger[SubjectOf(fabric, c)];
      recorded.version < c.binding.value.version || recorded == EntryOf(c.binding.value)
  }

  predicate AllAcceptable(ledger: Ledger, s: Snapshot) {
    forall c | c in s.capabilities :: Acceptable(ledger, s.fabric, c)
  }

  predicate IsNewest(ledger: Ledger, fabric: string, c: Capability) {
    c.binding.Some? ==> SubjectOf(fabric, c) in ledger && ledger[SubjectOf(fabric, c)] == EntryOf(c.binding.value)
  }

  /** Every bound Capability carries exactly the newest recorded binding. */
  predicate NewestBindings(ledger: Ledger, s: Snapshot) {
    forall c | c in s.capabilities :: IsNewest(ledger, s.fabric, c)
  }

  /** Versions only grow, and a recorded version keeps its signature. */
  predicate Advances(before: Ledger, after: Ledger) {
    forall k | k in before :: k in after && (before[k].version < after[k].version || before[k] == after[k])
  }

  lemma AdvancesTransitive(a: Ledger, b: Ledger, c: Ledger)
    requires Advances(a, b) && Advances(b, c)
    ensures Advances(a, c)
  {
  }

  // ---- the database between two calls ------------------------------------------------------

  predicate RowsBelong<V>(table: Rows<V>, ids: set<nat>) {
    forall k | k in table :: k.0 in ids
  }

  /** What the schema's keys and the store's transactions keep. */
  predicate Tidy<P>(db: Database<P>) {
    && (forall id | id in db.snapshots :: id < db.nextID && db.snapshots[id].committed)
    && RowsBelong(db.devices, db.snapshots.Keys) && RowsBelong(db.keys, db.snapshots.Keys)
    && RowsBelong(db.capabilities, db.snapshots.Keys) && RowsBelong(db.bindings, db.snapshots.Keys)
    && RowsBelong(db.profiles, db.snapshots.Keys) && RowsBelong(db.grants, db.snapshots.Keys)
    && |db.snapshots| <= KEPT_SNAPSHOTS
    && (db.active.Some? ==> db.active.value in db.snapshots)
    && (db.snapshots != map[] ==> db.active.Some?)
  }

  /** The newest five of a set of IDs. */
  predicate Newest(kept: set<nat>, ids: set<nat>) {
    && kept <= ids
    && |kept| == (if |ids| < KEPT_SNAPSHOTS then |ids| else KEPT_SNAPSHOTS)
    && forall a, b | a in kept && b in ids - kept :: a > b
  }

  /** The effect of an accepted commit. */
  predicate Commits<P(==)>(before: Database<P>, s: Snapshot, after: Database<P>) {
    && Stored(after, before.nextID, s) && after.active == Some(before.nextID) && after.nextID == before.nextID + 1
    && Newest(after.snapshots.Keys, before.snapshots.Keys + {before.nextID})
    && (forall id | id in after.snapshots && id != before.nextID ::
          after.snapshots[id] == before.snapshots[id] && SliceAt(after, id) == SliceAt(before, id))
    && Advances(before.ledger, after.ledger) && NewestBindings(after.ledger, s)
    && after.control == before.control && after.versions == before.versions && after.revocations == before.revocations
    && after.clock == Some(if before.clock.Some? && before.clock.value > s.capturedAt then before.clock.value else s.capturedAt)
  }

  datatype LoadError = NoSnapshots | NoneValid | Unavailable

  datatype LoadResult = Loaded(snapshot: Snapshot, fallback: bool) | NotLoaded(error: LoadError)

  /** A candidate the loader accepts. */
  predicate Admissible<P>(db: Database<P>, s: Snapshot) {
    Valid(s) && NewestBindings(db.ledger, s)
  }

  predicate Earlier(active: Option<nat>, a: nat, b: nat) {
    if (Some(a) == active) == (Some(b) == active) then a > b else Some(a) == active
  }

  /** What the loader may return for one committed snapshot. */
  predicate Shows<P>(db: Database<P>, id: nat, raw: Snapshot, s: Snapshot) {
    IsLoad(db, id, raw) && Overlaid(db.versions, db.revocations.Keys, raw, s)
  }

  class Store<P(==)> {
    var db: Database<P>
    ghost var faults: nat // how many storage operations failed of themselves

    ghost predicate Valid()
      reads this
    {
      Tidy(db)
    }

    constructor ()
      ensures Valid() && fresh(this) && db.control.None? && db.revocations == map[] && db.snapshots == map[] && db.ledger == map[]
    {
      db := Database(1, map[], map[], map[], map[], map[], map[], map[], None, map[], None, None, map[], None);
      faults := 0;
    }

    method Works() returns (works: bool)
      modifies this`faults
      ensures faults == old(faults) + if works then 0 else 1
    {
      works := *;
      if !works {
        faults := faults + 1;
      }
    }

    // ---- control state --------------------------------------------------------------

    method LoadControlState() returns (payload: Option<P>, ok: bool)
      modifies this`faults
      ensures ok ==> payload == db.control
      ensures faults == old(faults) + if ok then 0 else 1
    {
      ok := Works();
      payload := if ok then db.control else None;
    }

    method SaveControlState(payload: P) returns (ok: bool)
      requires Valid()
      modifies this
      ensures Valid() && db == if ok then old(db).(control := Some(payload)) else old(db)
      ensures faults == old(faults) + if ok then 0 else 1
    {
      ok := Works();
      if ok {
        db := db.(control := Some(payload));
      }
    }

    /** One transaction for the state and for the overlay the catalog reads. */
    method SaveControlStateWithDeviceStatus(payload: P, device: string, revoked: bool, directory: nat, grant: nat) returns (ok: bool)
      requires Valid()
      modifies this
      ensures Valid()
      ensures db == if ok then WithStatus(old(db), payload, device, revoked, directory, grant) else old(db)
      ensures ok ==> StatusWritten(old(db), payload, device, revoked, directory, grant, db)
      ensures ok ==> faults == old(faults)
      ensures !ok && faults == old(faults) ==> !ValidIdentifier(device, LONGEST_IDENTIFIER) || directory == 0 || grant == 0
      ensures faults >= old(faults)
    {
      if !ValidIdentifier(device, LONGEST_IDENTIFIER) || directory == 0 || grant == 0 {
        return false;
      }
      var tx := db.(control := Some(payload), versions := Some(Raised(db.versions, directory, grant)));
      if revoked {
        var row := if device in tx.revocations then Raised(Some(tx.revocations[device]), directory, grant) else Versions(directory, grant);
        tx := tx.(revocations := tx.revocations[device := row]);
      } else {
        tx := tx.(revocations := tx.revocations - {device});
      }
      StatusMeans(db, payload, device, revoked, directory, grant);
      ok := Works();
      if ok {
        db := tx;
      }
    }

    /** The highest time ever observed, so a clock set back cannot extend a cached grant. */
    method ObserveAuthorizationTime(observed: int) returns (effective: Option<int>)
      requires Valid()
      modifies this
      ensures Valid() && db == old(db).(clock := db.clock)
      ensures effective.Some? ==> observed != 0 && effective.value >= observed && db.clock == effective
                                  && (old(db.clock).Some? ==> effective.value >= old(db.clock).value)
                                  && effective.value in {observed} + if old(db.clock).Some? then {old(db.clock).value} else {}
      ensures effective.None? ==> db == old(db)
    {
      if observed == 0 {
        return None;
      }
      var works := Works();
      if !works {
        return None;
      }
      var high := if db.clock.Some? && db.clock.value > observed then db.clock.value else observed;
      db := db.(clock := Some(high));
      effective := Some(high);
    }

    // ---- loading ------------------------------------------------------------------

    method LoadSnapshot(id: nat) returns (loaded: Option<Snapshot>)
      modifies this`faults
      ensures loaded.Some? ==> IsLoad(db, id, loaded.value)
      ensures faults >= old(faults) && (loaded.None? && faults == old(faults) ==> id !in db.snapshots || !db.snapshots[id].committed)
    {
      var works := Works();
      if !works || id !in db.snapshots || !db.snapshots[id].committed {
        return None;
      }
      var header, rows := db.snapshots[id], SliceAt(db, id);
      var devices := ListDevices(rows);
      var capabilities := ListCapabilities(rows);
      var grants := ListGrants(rows);
      loaded := Some(Snapshot(header.schema, header.fabric, header.directoryVersion, header.grantVersion, header.capturedAt,
                              devices, capabilities, grants));
    }

    method ApplyControlRevocations(s: Snapshot) returns (t: Option<Snapshot>)
      modifies this`faults
      ensures t.Some? ==> Overlaid(db.versions, db.revocations.Keys, s, t.value) && ShownOver(db.versions, db.revocations.Keys, s, t.value)
      ensures faults == old(faults) + if t.Some? then 0 else 1
    {
      var works := Works();
      if !works {
        return None;
      }
      var raised := Raised(db.versions, s.directoryVersion, s.grantVersion);
      var devices := MarkDevices(db.revocations.Keys, s.devices);
      var grants := MarkGrants(db.revocations.Keys, s.grants);
      t := Some(s.(directoryVersion := raised.directory, grantVersion := raised.grant, devices := devices, grants := grants));
      OverlayMeans(db.versions, db.revocations.Keys, s, t.value);
    }

    method ValidateBindingVersions(s: Snapshot) returns (ok: bool)
      modifies this`faults
      ensures ok ==> NewestBindings(db.ledger, s)
      ensures faults >= old(faults) && (!ok && faults == old(faults) ==> !NewestBindings(db.ledger, s))
    {
      for i := 0 to |s.capabilities|
        invariant forall k | 0 <= k < i :: IsNewest(db.ledger, s.fabric, s.capabilities[k])
        invariant faults == old(faults)
      {
        var capability := s.capabilities[i];
        assert capability in s.capabilities;
        if capability.binding.Some? {
          var works := Works();
          if !works || SubjectOf(s.fabric, capability) !in db.ledger {
            return false;
          }
          var recorded := db.ledger[SubjectOf(s.fabric, capability)];
          if capability.binding.value.version != recorded.version || capability.binding.value.signature != recorded.signature {
            return false;
          }
        }
      }
      ok := true;
    }

    /** Reads one candidate and puts it through every check. */
    method TryCandidate(id: nat) returns (raw: Snapshot, shown: Option<Snapshot>)
      modifies this`faults
      ensures shown.Some? ==> Shows(db, id, raw, shown.value) && Admissible(db, shown.value)
      ensures shown.Some? ==> Snapshots.Valid(shown.value) && NewestBindings(db.ledger, shown.value)
      ensures faults >= old(faults)
      ensures shown.None? && faults == old(faults) && id in db.snapshots && db.snapshots[id].committed ==>
                exists r, t :: Shows(db, id, r, t) && !Admissible(db, t)
    {
      hide Snapshots.Valid, NewestBindings, Overlaid, IsLoad;
      raw := Snapshot("", "", 0, 0, 0, [], [], []);
      var loaded := LoadSnapshot(id);
      if loaded.None? {
        return raw, None;
      }
      raw := loaded.value;
      shown := ApplyControlRevocations(raw);
      if shown.None? {
        return;
      }
      assert Shows(db, id, raw, shown.value);
      var valid := Validate(shown.value);
      if !valid {
        return raw, None;
      }
      var newest := ValidateBindingVersions(shown.value);
      if !newest {
        return raw, None;
      }
    }

    /** The active snapshot if it is acceptable, or else the newest one that is, which
        then becomes the active one. */
    method LoadLatestValidSnapshot() returns (result: LoadResult, ghost id: nat, ghost raw: Snapshot)
      requires Valid()
      modifies this
      ensures Valid() && db == old(db).(active := db.active)
      ensures result.Loaded? ==> Shows(old(db), id, raw, result.snapshot) && Admissible(old(db), result.snapshot)
                                 && db.active == Some(id) && (result.fallback <==> old(db.active) != Some(id))
      ensures result.Loaded? ==> ShownOver(old(db.versions), old(db.revocations).Keys, raw, result.snapshot)
      ensures result.Loaded? ==> Snapshots.Valid(result.snapshot) && NewestBindings(old(db.ledger), result.snapshot)
      ensures result.NotLoaded? ==> db == old(db)
      ensures faults >= old(faults)
      ensures faults == old(faults) ==> if result.Loaded? then Skipped(old(db), id) else AllSkipped(old(db))
    {
      hide Snapshots.Valid, NewestBindings, Shows, Admissible, RowsBelong, ShownOver;
      id, raw := 0, Snapshot("", "", 0, 0, 0, [], [], []);
      var works := Works();
      if !works {
        return NotLoaded(Unavailable), id, raw;
      }
      var candidates := InLoadOrder(db.active, db.snapshots.Keys);
      if candidates == [] {
        return NotLoaded(NoSnapshots), id, raw;
      }
      for i := 0 to |candidates|
        invariant db == old(db) && faults >= old(faults)
        invariant faults == old(faults) ==> forall k | 0 <= k < i :: Refused(old(db), candidates[k])
      {
        var candidate := candidates[i];
        assert candidate in candidates;
        var r, shown := TryCandidate(candidate);
        if shown.Some? {
          ShownMeans(db, candidate, r, shown.value);
          assert faults == old(faults) ==> Skipped(old(db), candidate) by {
            EarlierCandidatesSkipped(db, candidates, i, faults == old(faults));
          }
          if db.active != Some(candidate) {
            works := Works();
            if !works {
              return NotLoaded(Unavailable), id, raw;
            }
            db := db.(active := Some(candidate));
            return Loaded(shown.value, true), candidate, r;
          }
          return Loaded(shown.value, false), candidate, r;
        }
      }
      result := NotLoaded(NoneValid);
    }

    // ---- CommitSnapshot -------------------------------------------------------------

    method InsertDevices(before: Database<P>, id: nat, devices: seq<Device>) returns (tx: Database<P>, ok: bool)
      requires Under(before.devices, id) == map[] && Under(before.keys, id) == map[]
      modifies this`faults
      ensures ok ==> tx == before.(devices := tx.devices, keys := tx.keys)
                     && Fills(before.devices, tx.devices, id, Table(devices, DeviceName, DeviceRowOf))
                     && Fills(before.keys, tx.keys, id, Table(devices, DeviceName, KeyRowOf))
      ensures faults == old(faults) + if ok then 0 else 1
    {
      tx := before;
      NoRowsYet(before.devices, id, DeviceName, DeviceRowOf);
      NoRowsYet(before.keys, id, DeviceName, KeyRowOf);
      hide Fills, Table;
      for i := 0 to |devices|
        invariant faults == old(faults) && tx == before.(devices := tx.devices, keys := tx.keys)
        invariant Fills(before.devices, tx.devices, id, Table(devices[..i], DeviceName, DeviceRowOf))
        invariant Fills(before.keys, tx.keys, id, Table(devices[..i], DeviceName, KeyRowOf))
      {
        var device := devices[i];
        ok := Works();
        if !ok {
          return;
        }
        FillsOneMore(before.devices, tx.devices, id, devices, i, DeviceName, DeviceRowOf);
        FillsOneMore(before.keys, tx.keys, id, devices, i, DeviceName, KeyRowOf);
        tx := tx.(devices := tx.devices[(id, device.id) := DeviceRowOf(device).value]);
        if device.key != "" {
          tx := tx.(keys := tx.keys[(id, device.id) := device.key]);
        }
      }
      assert devices[..|devices|] == devices;
      ok := true;
    }

    method InsertGrants(before: Database<P>, id: nat, grants: seq<Grant>) returns (tx: Database<P>, ok: bool)
      requires Under(before.grants, id) == map[]
      modifies this`faults
      ensures ok ==> tx == before.(grants := tx.grants) && Fills(before.grants, tx.grants, id, Table(grants, GrantName, GrantRowOf))
      ensures faults == old(faults) + if ok then 0 else 1
    {
      tx := before;
      NoRowsYet(before.grants, id, GrantName, GrantRowOf);
      hide Fills, Table;
      for i := 0 to |grants|
        invariant faults == old(faults) && tx == before.(grants := tx.grants)
        invariant Fills(before.grants, tx.grants, id, Table(grants[..i], GrantName, GrantRowOf))
      {
        var grant := grants[i];
        ok := Works();
        if !ok {
          return;
        }
        FillsOneMore(before.grants, tx.grants, id, grants, i, GrantName, GrantRowOf);
        tx := tx.(grants := tx.grants[(id, grant.id) := GrantRowOf(grant).value]);
      }
      assert grants[..|grants|] == grants;
      ok := true;
    }

    /** Also checks each binding against the ledger and records it there. */
    method InsertCapabilities(before: Database<P>, id: nat, s: Snapshot) returns (tx: Database<P>, ok: bool)
      requires UniqueCapabilities(s.capabilities)
      requires Under(before.capabilities, id) == map[] && Under(before.bindings, id) == map[] && Under(before.profiles, id) == map[]
      modifies this`faults
      ensures ok ==> tx == before.(capabilities := tx.capabilities, bindings := tx.bindings, profiles := tx.profiles, ledger := tx.ledger)
                     && CapabilitiesFilled(before, tx, id, s.capabilities) && AllAcceptable(before.ledger, s)
                     && Recorded(before.ledger, tx.ledger, s.fabric, s.capabilities, |s.capabilities|)
      ensures faults >= old(faults) && (ok ==> faults == old(faults))
      ensures !ok && faults == old(faults) ==> !AllAcceptable(before.ledger, s)
    {
      hide Fills, Table, Under, Recorded, Acceptable;
      tx := before;
      NothingFilled(before, id);
      NothingRecorded(before.ledger, s.fabric, s.capabilities);
      for i := 0 to |s.capabilities|
        invariant faults == old(faults)
        invariant tx == before.(capabilities := tx.capabilities, bindings := tx.bindings, profiles := tx.profiles, ledger := tx.ledger)
        invariant CapabilitiesFilled(before, tx, id, s.capabilities[..i])
        invariant forall k | 0 <= k < i :: Acceptable(before.ledger, s.fabric, s.capabilities[k])
        invariant Recorded(before.ledger, tx.ledger, s.fabric, s.capabilities, i)
      {
        var capability := s.capabilities[i];
        ok := Works();
        if !ok {
          return;
        }
        OneMoreCapability(before, tx, id, s.capabilities, i);
        tx := WithCapability(tx, id, capability);
        if capability.binding.Some? {
          RecordsOneMore(before.ledger, tx.ledger, s.fabric, s.capabilities, i);
          var ledger;
          ledger, ok := AdvanceLedger(tx.ledger, s.fabric, capability);
          if !ok {
            assert capability in s.capabilities;
            return;
          }
          tx := tx.(ledger := ledger);
        } else {
          RecordsNothing(before.ledger, tx.ledger, s.fabric, s.capabilities, i);
        }
      }
      assert s.capabilities[..|s.capabilities|] == s.capabilities;
      ok := true;
    }

    method AdvanceLedger(before: Ledger, fabric: string, c: Capability) returns (ledger: Ledger, ok: bool)
      requires c.binding.Some?
      ensures ok <==> Acceptable(before, fabric, c)
      ensures ok ==> ledger == before[SubjectOf(fabric, c) := EntryOf(c.binding.value)]
    {
      ledger := before;
      var subject, binding := SubjectOf(fabric, c), c.binding.value;
      if subject in ledger {
        var recorded := ledger[subject];
        if binding.version < recorded.version || (binding.version == recorded.version && binding.signature != recorded.signature) {
          return ledger, false;
        }
      }
      if subject !in ledger || binding.version > ledger[subject].version {
        ledger := ledger[subject := EntryOf(binding)];
      }
      ok := true;
    }

    /** Marks the snapshot committed, activates it, moves the clock and prunes. */
    method Activate(before: Database<P>, id: nat, s: Snapshot) returns (tx: Database<P>)
      requires id in before.snapshots
      ensures exists kept :: Newest(kept, before.snapshots.Keys) && tx == Activated(before, id, s, kept)
    {
      tx := before.(snapshots := before.snapshots[id := before.snapshots[id].(committed := true)], active := Some(id),
                    clock := Some(if before.clock.Some? && before.clock.value > s.capturedAt then before.clock.value else s.capturedAt));
      var kept := NewestFive(tx.snapshots.Keys);
      assert tx.snapshots.Keys == before.snapshots.Keys;
      tx := Pruned(tx, kept);
    }

    method CommitSnapshot(s: Snapshot) returns (ok: bool)
      requires Valid()
      modifies this
      ensures Valid()
      ensures ok ==> Snapshots.Valid(s) && AllAcceptable(old(db.ledger), s) && Commits(old(db), s, db)
      ensures !ok ==> db == old(db)
      ensures faults >= old(faults)
      ensures !ok && faults == old(faults) ==> !Snapshots.Valid(s) || !AllAcceptable(old(db.ledger), s)
    {
      hide Snapshots.Valid, Commits, AllAcceptable, Fills, Table, Under, Recorded, SliceAt, Newest, RowsBelong, Activated, UniqueCapabilities;
      ok := Validate(s);
      if !ok {
        return;
      }
      ValidIsUnique(s);
      ok := Works(); // begin, and draw the snapshot key
      if !ok {
        return;
      }
      var id := db.nextID;
      FreshIDHasNoRows(db);
      var tx := db.(nextID := id + 1, snapshots := db.snapshots[id := HeaderOf(s).(committed := false)]);
      tx, ok := InsertDevices(tx, id, s.devices);
      if !ok {
        return;
      }
      tx, ok := InsertCapabilities(tx, id, s);
      if !ok {
        return;
      }
      tx, ok := InsertGrants(tx, id, s.grants);
      if !ok {
        return;
      }
      ghost var filled := tx;
      tx := Activate(tx, id, s);
      ghost var kept :| Newest(kept, filled.snapshots.Keys) && tx == Activated(filled, id, s, kept);
      CommitComposes(db, filled, s, kept);
      ok := Works(); // commit
      if ok {
        db := tx;
      }
    }
  }

  /** What is committed under this ID is not acceptable. */
  ghost predicate Refused<P>(db: Database<P>, id: nat) {
    exists raw, s :: Shows(db, id, raw, s) && !Admissible(db, s)
  }

  ghost predicate Skipped<P>(db: Database<P>, id: nat) {
    forall other | other in db.snapshots && Earlier(db.active, other, id) :: Refused(db, other)
  }

  ghost predicate AllSkipped<P>(db: Database<P>) {
    forall other | other in db.snapshots :: Refused(db, other)
  }

  /** The candidates in the order of the query: the active one, then by falling ID. */
  method InLoadOrder(active: Option<nat>, ids: set<nat>) returns (listed: seq<nat>)
    ensures forall id :: id in listed <==> id in ids
    ensures forall i, j | 0 <= i < j < |listed| :: Earlier(active, listed[i], listed[j])
  {
    listed := [];
    var remaining := ids;
    if active.Some? && active.value in ids {
      listed, remaining := [active.value], ids - {active.value};
    }
    while remaining != {}
      invariant remaining <= ids && (active.Some? ==> active.value !in remaining)
      invariant forall id :: id in listed <==> id in ids && id !in remaining
      invariant forall i, j | 0 <= i < j < |listed| :: Earlier(active, listed[i], listed[j])
      invariant forall i, id | 0 <= i < |listed| && id in remaining :: Earlier(active, listed[i], id)
      decreases |remaining|
    {
      var id := Highest(remaining);
      listed, remaining := listed + [id], remaining - {id};
    }
  }

  lemma ShownMeans<P>(db: Database<P>, id: nat, raw: Snapshot, s: Snapshot)
    requires Shows(db, id, raw, s)
    ensures ShownOver(db.versions, db.revocations.Keys, raw, s)
  {
    OverlayMeans(db.versions, db.revocations.Keys, raw, s);
  }

  lemma EarlierCandidatesSkipped<P>(db: Database<P>, candidates: seq<nat>, i: nat, faultless: bool)
    requires i < |candidates|
    requires forall id :: id in candidates <==> id in db.snapshots.Keys
    requires forall j, k | 0 <= j < k < |candidates| :: Earlier(db.active, candidates[j], candidates[k])
    requires faultless ==> forall k | 0 <= k < i :: Refused(db, candidates[k])
    ensures faultless ==> Skipped(db, candidates[i])
  {
    if faultless {
      forall other | other in db.snapshots && Earlier(db.active, other, candidates[i])
        ensures Refused(db, other)
      {
        assert other in candidates;
        var k :| 0 <= k < |candidates| && candidates[k] == other;
        assert k < i;
      }
    }
  }

  method MarkDevices(revoked: set<string>, before: seq<Device>) returns (devices: seq<Device>)
    ensures |devices| == |before| && forall i | 0 <= i < |before| :: devices[i] == MarkDevice(revoked, before[i])
  {
    devices := before;
    for i := 0 to |devices|
      invariant |devices| == |before|
      invariant forall k | 0 <= k < |before| :: devices[k] == if k < i then MarkDevice(revoked, before[k]) else before[k]
    {
      if devices[i].id in revoked {
        devices := devices[i := devices[i].(state := REVOKED)];
      }
    }
  }

  method MarkGrants(revoked: set<string>, before: seq<Grant>) returns (grants: seq<Grant>)
    ensures |grants| == |before| && forall i | 0 <= i < |before| :: grants[i] == MarkGrant(revoked, before[i])
  {
    grants := before;
    for i := 0 to |grants|
      invariant |grants| == |before|
      invariant forall k | 0 <= k < |before| :: grants[k] == if k < i then MarkGrant(revoked, before[k]) else before[k]
    {
      if grants[i].subject in revoked {
        grants := grants[i := grants[i].(state := REVOKED)];
      }
    }
  }

  lemma FreshIDHasNoRows<P>(db: Database<P>)
    requires Tidy(db)
    ensures db.nextID !in db.snapshots
    ensures Under(db.devices, db.nextID) == map[] && Under(db.keys, db.nextID) == map[]
    ensures Under(db.capabilities, db.nextID) == map[] && Under(db.bindings, db.nextID) == map[]
    ensures Under(db.profiles, db.nextID) == map[] && Under(db.grants, db.nextID) == map[]
  {
    NoRowsUnder(db.devices, db.snapshots.Keys, db.nextID);
    NoRowsUnder(db.keys, db.snapshots.Keys, db.nextID);
    NoRowsUnder(db.capabilities, db.snapshots.Keys, db.nextID);
    NoRowsUnder(db.bindings, db.snapshots.Keys, db.nextID);
    NoRowsUnder(db.profiles, db.snapshots.Keys, db.nextID);
    NoRowsUnder(db.grants, db.snapshots.Keys, db.nextID);
  }

  lemma NoRowsUnder<V>(table: Rows<V>, ids: set<nat>, id: nat)
    requires RowsBelong(table, ids) && id !in ids
    ensures Under(table, id) == map[]
  {
  }

  function WithStatus<P>(db: Database<P>, payload: P, device: string, revoked: bool, directory: nat, grant: nat): Database<P> {
    db.(control := Some(payload), versions := Some(Raised(db.versions, directory, grant)),
        revocations := if revoked then
                         db.revocations[device := if device in db.revocations then Raised(Some(db.revocations[device]), directory, grant)
                                                  else Versions(directory, grant)]
                       else db.revocations - {device})
  }

  /** The payload is stored, control versions and revocation rows are never lowered, an active
      Device loses its row and a revoked one has one. */
  predicate StatusWritten<P(==)>(before: Database<P>, payload: P, device: string, revoked: bool, directory: nat, grant: nat, after: Database<P>) {
    && after == before.(control := Some(payload), versions := after.versions, revocations := after.revocations)
    && after.versions.Some? && HighestOf(before.versions, directory, grant, after.versions.value)
    && (device in after.revocations <==> revoked)
    && (revoked ==> HighestOf(if device in before.revocations then Some(before.revocations[device]) else None, directory, grant,
                              after.revocations[device]))
    && after.revocations - {device} == before.revocations - {device}
  }

  lemma StatusMeans<P>(db: Database<P>, payload: P, device: string, revoked: bool, directory: nat, grant: nat)
    ensures StatusWritten(db, payload, device, revoked, directory, grant, WithStatus(db, payload, device, revoked, directory, grant))
  {
    hide HighestOf, Raised;
    RaisedIsHighest(db.versions, directory, grant);
    RaisedIsHighest(if device in db.revocations then Some(db.revocations[device]) else None, directory, grant);
    JustThese(directory, grant);
  }

  lemma JustThese(directory: nat, grant: nat)
    ensures Raised(None, directory, grant) == Versions(directory, grant)
  {
  }

  // ---- steps of a commit --------------------------------------------------------------------

  /** The table gains exactly these rows, all of one snapshot. */
  ghost predicate Fills<V>(before: Rows<V>, after: Rows<V>, id: nat, rows: map<string, V>) {
    Under(after, id) == rows && forall other | other != id :: Under(after, other) == Under(before, other)
  }

  ghost predicate CapabilitiesFilled<P>(before: Database<P>, after: Database<P>, id: nat, capabilities: seq<Capability>) {
    && Fills(before.capabilities, after.capabilities, id, Table(capabilities, CapabilityName, CapabilityRowOf))
    && Fills(before.bindings, after.bindings, id, Table(capabilities, CapabilityName, BindingRowOf))
    && Fills(before.profiles, after.profiles, id, Table(capabilities, CapabilityName, ProfileRowOf))
  }

  function WithCapability<P>(db: Database<P>, id: nat, c: Capability): Database<P> {
    db.(capabilities := db.capabilities[(id, c.id) := CapabilityRowOf(c).value],
        bindings := if c.binding.Some? then db.bindings[(id, c.id) := c.binding.value] else db.bindings,
        profiles := if c.profile.Some? then db.profiles[(id, c.id) := c.profile.value] else db.profiles)
  }

  lemma NoRowsYet<T, V>(table: Rows<V>, id: nat, name: T -> string, row: T -> Option<V>)
    requires Under(table, id) == map[]
    ensures Fills(table, table, id, Table([], name, row))
  {
  }

  lemma NothingFilled<P>(db: Database<P>, id: nat)
    requires Under(db.capabilities, id) == map[] && Under(db.bindings, id) == map[] && Under(db.profiles, id) == map[]
    ensures CapabilitiesFilled(db, db, id, [])
  {
  }

  function WithRow<V>(table: Rows<V>, id: nat, name: string, row: Option<V>): Rows<V> {
    if row.Some? then table[(id, name) := row.value] else table
  }

  lemma FillsOneMore<T, V>(before: Rows<V>, after: Rows<V>, id: nat, items: seq<T>, i: nat, name: T -> string, row: T -> Option<V>)
    requires i < |items| && Fills(before, after, id, Table(items[..i], name, row))
    ensures Fills(before, WithRow(after, id, name(items[i]), row(items[i])), id, Table(items[..i + 1], name, row))
  {
    hide Under;
    assert items[..i + 1][..i] == items[..i];
    if row(items[i]).Some? {
      InsertUnder(after, id, name(items[i]), row(items[i]).value);
    }
  }

  lemma OneMoreCapability<P>(before: Database<P>, tx: Database<P>, id: nat, capabilities: seq<Capability>, i: nat)
    requires i < |capabilities| && CapabilitiesFilled(before, tx, id, capabilities[..i])
    ensures CapabilitiesFilled(before, WithCapability(tx, id, capabilities[i]), id, capabilities[..i + 1])
  {
    hide Fills, Table;
    FillsOneMore(before.capabilities, tx.capabilities, id, capabilities, i, CapabilityName, CapabilityRowOf);
    FillsOneMore(before.bindings, tx.bindings, id, capabilities, i, CapabilityName, BindingRowOf);
    FillsOneMore(before.profiles, tx.profiles, id, capabilities, i, CapabilityName, ProfileRowOf);
  }

  /** The first `n` capabilities are recorded, nothing is about the others yet. */
  predicate Recorded(before: Ledger, after: Ledger, fabric: string, capabilities: seq<Capability>, n: nat)
    requires n <= |capabilities|
  {
    && Advances(before, after)
    && (forall k | 0 <= k < n :: IsNewest(after, fabric, capabilities[k]))
    && (forall k | n <= k < |capabilities| :: SameEntry(before, after, SubjectOf(fabric, capabilities[k])))
  }

  predicate SameEntry(before: Ledger, after: Ledger, subject: Target) {
    (subject in after <==> subject in before) && (subject in before ==> after[subject] == before[subject])
  }

  lemma NothingRecorded(ledger: Ledger, fabric: string, capabilities: seq<Capability>)
    ensures Recorded(ledger, ledger, fabric, capabilities, 0)
  {
  }

  lemma RecordsNothing(before: Ledger, after: Ledger, fabric: string, capabilities: seq<Capability>, i: nat)
    requires i < |capabilities| && capabilities[i].binding.None? && Recorded(before, after, fabric, capabilities, i)
    ensures Recorded(before, after, fabric, capabilities, i + 1) && Acceptable(before, fabric, capabilities[i])
  {
  }

  lemma RecordsOneMore(before: Ledger, after: Ledger, fabric: string, capabilities: seq<Capability>, i: nat)
    requires UniqueCapabilities(capabilities) && i < |capabilities| && capabilities[i].binding.Some?
    requires Recorded(before, after, fabric, capabilities, i)
    ensures Acceptable(after, fabric, capabilities[i]) == Acceptable(before, fabric, capabilities[i])
    ensures Acceptable(after, fabric, capabilities[i]) ==>
              Recorded(before, after[SubjectOf(fabric, capabilities[i]) := EntryOf(capabilities[i].binding.value)], fabric, capabilities, i + 1)
  {
    var c := capabilities[i];
    assert SameEntry(before, after, SubjectOf(fabric, c));
    forall k | 0 <= k < |capabilities| && k != i
      ensures SubjectOf(fabric, capabilities[k]) != SubjectOf(fabric, c)
    {
      assert capabilities[k].id != c.id;
    }
  }

  lemma ValidIsUnique(s: Snapshot)
    requires Valid(s)
    ensures UniqueDevices(s.devices) && UniqueCapabilities(s.capabilities) && UniqueGrants(s.grants)
  {
  }

  /** The transaction just before it is marked committed. */
  ghost predicate Inserted<P>(before: Database<P>, s: Snapshot, tx: Database<P>) {
    && tx == before.(nextID := before.nextID + 1, snapshots := tx.snapshots, devices := tx.devices, keys := tx.keys,
                     capabilities := tx.capabilities, bindings := tx.bindings, profiles := tx.profiles, grants := tx.grants,
                     ledger := tx.ledger)
    && tx.snapshots == before.snapshots[before.nextID := HeaderOf(s).(committed := false)]
    && Fills(before.devices, tx.devices, before.nextID, Table(s.devices, DeviceName, DeviceRowOf))
    && Fills(before.keys, tx.keys, before.nextID, Table(s.devices, DeviceName, KeyRowOf))
    && CapabilitiesFilled(before, tx, before.nextID, s.capabilities)
    && Fills(before.grants, tx.grants, before.nextID, Table(s.grants, GrantName, GrantRowOf))
    && Recorded(before.ledger, tx.ledger, s.fabric, s.capabilities, |s.capabilities|)
  }

  lemma InsertedSlices<P>(before: Database<P>, s: Snapshot, tx: Database<P>)
    requires Inserted(before, s, tx)
    ensures SliceAt(tx, before.nextID) == SliceOf(s)
    ensures forall id | id != before.nextID :: SliceAt(tx, id) == SliceAt(before, id)
  {
    hide Table, Under, Recorded;
  }

  lemma PrunedSlice<P>(db: Database<P>, kept: set<nat>, id: nat)
    requires id in kept
    ensures SliceAt(Pruned(db, kept), id) == SliceAt(db, id)
  {
    CascadeUnder(db.devices, kept, id);
    CascadeUnder(db.keys, kept, id);
    CascadeUnder(db.capabilities, kept, id);
    CascadeUnder(db.bindings, kept, id);
    CascadeUnder(db.profiles, kept, id);
    CascadeUnder(db.grants, kept, id);
  }

  lemma NewestIsKept(kept: set<nat>, ids: set<nat>, newest: nat)
    requires Newest(kept, ids) && newest in ids && forall id | id in ids :: id <= newest
    ensures newest in kept
  {
    assert kept != {};
    var a :| a in kept;
    assert newest in ids - kept ==> a > newest;
  }

  lemma PrunedIsTidy<P>(before: Database<P>, s: Snapshot, tx: Database<P>, kept: set<nat>)
    requires Tidy(before) && Inserted(before, s, tx) && Newest(kept, tx.snapshots.Keys)
    ensures Tidy(Activated(tx, before.nextID, s, kept)) && before.nextID in kept
    ensures Activated(tx, before.nextID, s, kept).snapshots.Keys == kept
  {
    hide Fills, Table, CapabilitiesFilled, Recorded, RowsBelong, Cascade;
    NewestIsKept(kept, tx.snapshots.Keys, before.nextID);
    var marked := Marked(tx, before.nextID, s);
    CascadeBelongs(marked.devices, kept);
    CascadeBelongs(marked.keys, kept);
    CascadeBelongs(marked.capabilities, kept);
    CascadeBelongs(marked.bindings, kept);
    CascadeBelongs(marked.profiles, kept);
    CascadeBelongs(marked.grants, kept);
    assert Pruned(marked, kept).snapshots.Keys == kept;
  }

  lemma CascadeBelongs<V>(table: Rows<V>, kept: set<nat>)
    ensures RowsBelong(Cascade(table, kept), kept)
  {
  }

  lemma CommitComposes<P>(before: Database<P>, tx: Database<P>, s: Snapshot, kept: set<nat>)
    requires Tidy(before) && Inserted(before, s, tx) && Newest(kept, tx.snapshots.Keys)
    ensures var after := Activated(tx, before.nextID, s, kept); Commits(before, s, after) && Tidy(after)
  {
    hide Fills, Table, CapabilitiesFilled, SliceAt, SliceOf, Newest, Tidy, RowsBelong, Recorded;
    var id := before.nextID;
    var after := Activated(tx, id, s, kept);
    PrunedIsTidy(before, s, tx, kept);
    InsertedSlices(before, s, tx);
    RecordedIsNewest(before.ledger, tx.ledger, s);
    ActivatedSlices(tx, id, s, kept);
    assert tx.snapshots.Keys == before.snapshots.Keys + {id};
  }

  lemma RecordedIsNewest(before: Ledger, after: Ledger, s: Snapshot)
    requires Recorded(before, after, s.fabric, s.capabilities, |s.capabilities|)
    ensures Advances(before, after) && NewestBindings(after, s)
  {
  }

  lemma ActivatedSlices<P>(tx: Database<P>, id: nat, s: Snapshot, kept: set<nat>)
    requires id in tx.snapshots
    ensures forall other | other in kept :: SliceAt(Activated(tx, id, s, kept), other) == SliceAt(tx, other)
  {
    hide SliceAt, Pruned;
    forall other | other in kept
      ensures SliceAt(Activated(tx, id, s, kept), other) == SliceAt(tx, other)
    {
      PrunedSlice(Marked(tx, id, s), kept, other);
      MarkedSlice(tx, id, s, other);
    }
  }

  lemma MarkedSlice<P>(tx: Database<P>, id: nat, s: Snapshot, other: nat)
    requires id in tx.snapshots
    ensures SliceAt(Marked(tx, id, s), other) == SliceAt(tx, other)
  {
    hide Under;
  }

  function Pruned<P>(db: Database<P>, kept: set<nat>): Database<P> {
    db.(snapshots := map id | id in db.snapshots && id in kept :: db.snapshots[id],
        devices := Cascade(db.devices, kept), keys := Cascade(db.keys, kept),
        capabilities := Cascade(db.capabilities, kept), bindings := Cascade(db.bindings, kept),
        profiles := Cascade(db.profiles, kept), grants := Cascade(db.grants, kept))
  }

  function Activated<P>(db: Database<P>, id: nat, s: Snapshot, kept: set<nat>): Database<P>
    requires id in db.snapshots
  {
    Pruned(Marked(db, id, s), kept)
  }

  function Marked<P>(db: Database<P>, id: nat, s: Snapshot): Database<P>
    requires id in db.snapshots
  {
    db.(snapshots := db.snapshots[id := db.snapshots[id].(committed := true)], active := Some(id),
        clock := Some(if db.clock.Some? && db.clock.value > s.capturedAt then db.clock.value else s.capturedAt))
  }

  method NewestFive(ids: set<nat>) returns (kept: set<nat>)
    ensures Newest(kept, ids)
  {
    kept := {};
    var remaining := ids;
    while remaining != {} && |kept| < KEPT_SNAPSHOTS
      invariant kept + remaining == ids && kept !! remaining && |kept| <= KEPT_SNAPSHOTS
      invariant forall a, b | a in kept && b in remaining :: a > b
      decreases |remaining|
    {
      var id := Highest(remaining);
      kept, remaining := kept + {id}, remaining - {id};
    }
    assert |ids| == |kept| + |remaining|;
    assert ids - kept == remaining;
  }

  method Highest(ids: set<nat>) returns (id: nat)
    requires ids != {}
    ensures id in ids && forall other | other in ids :: other <= id
  {
    var first :| first in ids;
    id := first;
    var remaining := ids - {id};
    while remaining != {}
      invariant remaining <= ids && id in ids
      invariant forall other | other in ids && other !in remaining :: other <= id
      decreases |remaining|
    {
      var next :| next in remaining;
      remaining := remaining - {next};
      if next > id {
        id := next;
      }
    }
  }

  // ---- what the store promises ------------------------------------------------------------------

  /** Whatever the loader reads for a stored snapshot that carries the newest bindings
      is acceptable, and its lists are the committed ones in order. */
  lemma StoredIsAdmissible<P>(db: Database<P>, id: nat, s: Snapshot, raw: Snapshot, t: Snapshot)
    requires Valid(s) && Stored(db, id, s) && NewestBindings(db.ledger, s) && Shows(db, id, raw, t)
    ensures SortedCopyOf(s, raw) && Admissible(db, t)
  {
    hide Valid, Stored, IsLoad, Overlaid, IsNewest;
    StoredLoadsBack(db, id, s, raw);
    SortingKeepsValidity(s, raw);
    OverlayKeepsValidity(db.versions, db.revocations.Keys, raw, t);
    OverlayKeepsLists(db.versions, db.revocations.Keys, raw, t);
    SameMembers(s.capabilities, raw.capabilities);
  }

  /** A snapshot just committed is the one the next load returns, not a fallback. */
  lemma CommittedIsServed<P>(db: Database<P>, id: nat, s: Snapshot, served: nat)
    requires Valid(s) && Stored(db, id, s) && NewestBindings(db.ledger, s) && db.active == Some(id)
    ensures !Refused(db, id) && !AllSkipped(db)
    ensures served in db.snapshots && Skipped(db, served) ==> served == id
  {
    hide Valid, NewestBindings, SliceAt, SliceOf, Admissible, Shows;
    if Refused(db, id) {
      var raw, t :| Shows(db, id, raw, t) && !Admissible(db, t);
      StoredIsAdmissible(db, id, s, raw, t);
      assert false;
    }
    if served != id {
      assert Earlier(db.active, id, served);
    }
  }

  /** Commit, then load: the same Devices, Capabilities and grants, ordered by ID, with
      the overlay on top. */
  method CommitThenLoad<P(==)>(store: Store<P>, s: Snapshot) returns (ok: bool, ghost raw: Snapshot, t: Snapshot)
    requires store.Valid()
    modifies store
    ensures store.Valid()
    ensures ok ==> SortedCopyOf(s, raw) && ShownOver(store.db.versions, store.db.revocations.Keys, raw, t)
    ensures store.faults == old(store.faults) ==> (ok <==> Valid(s) && AllAcceptable(old(store.db.ledger), s))
  {
    hide Valid, AllAcceptable, NewestBindings, SliceAt, SliceOf, IsLoad, Overlaid, Newest, Skipped, AllSkipped, RowsBelong, SortedCopyOf,
      ShownOver;
    raw, t := Snapshot("", "", 0, 0, 0, [], [], []), Snapshot("", "", 0, 0, 0, [], [], []);
    ok := store.CommitSnapshot(s);
    if !ok {
      return;
    }
    ghost var db, id := store.db, old(store.db.nextID);
    var result;
    ghost var served;
    result, served, raw := store.LoadLatestValidSnapshot();
    CommittedIsServed(db, id, s, served);
    if result.NotLoaded? || result.fallback {
      if result.Loaded? {
        ServedIsPresent(db, served, raw, result.snapshot);
      }
      return false, raw, t;
    }
    ok, t := true, result.snapshot;
    StoredIsAdmissible(db, id, s, raw, t);
  }

  lemma ServedIsPresent<P>(db: Database<P>, id: nat, raw: Snapshot, t: Snapshot)
    requires Shows(db, id, raw, t)
    ensures id in db.snapshots
  {
  }

  /** What a commit is refused for: a binding of a Capability that is older than the one
      recorded for it, or of the same version and signed otherwise. */
  lemma LedgerAccepts(ledger: Ledger, s: Snapshot)
    ensures AllAcceptable(ledger, s) <==>
            forall c | c in s.capabilities && c.binding.Some? && Target(s.fabric, c.device, c.id) in ledger ::
              var recorded, b := ledger[Target(s.fabric, c.device, c.id)], c.binding.value;
              b.version > recorded.version || (b.version == recorded.version && b.signature == recorded.signature)
    ensures NewestBindings(ledger, s) <==>
            forall c | c in s.capabilities && c.binding.Some? ::
              && Target(s.fabric, c.device, c.id) in ledger
              && ledger[Target(s.fabric, c.device, c.id)].version == c.binding.value.version
              && ledger[Target(s.fabric, c.device, c.id)].signature == c.binding.value.signature
  {
  }

  /** What a commit leaves: itself as the active snapshot, and besides it what was there, of
      which the oldest one goes when there are five already. */
  lemma CommitMeans<P>(before: Database<P>, s: Snapshot, after: Database<P>)
    requires Tidy(before) && Commits(before, s, after)
    ensures after.active == Some(before.nextID) && before.nextID in after.snapshots && before.nextID !in before.snapshots
    ensures |before.snapshots| < 5 ==> after.snapshots.Keys == before.snapshots.Keys + {before.nextID}
    ensures |before.snapshots| == 5 ==>
              exists oldest | oldest in before.snapshots ::
                && after.snapshots.Keys == before.snapshots.Keys - {oldest} + {before.nextID}
                && forall id | id in before.snapshots :: oldest <= id
    ensures |before.snapshots| <= 5 && |after.snapshots| <= 5 && after.nextID > before.nextID
    ensures forall id, t | id in after.snapshots && id != before.nextID :: IsLoad(after, id, t) <==> IsLoad(before, id, t)
    ensures after.control == before.control && after.versions == before.versions && after.revocations == before.revocations
    ensures after.clock.Some? && after.clock.value >= s.capturedAt && (before.clock.Some? ==> after.clock.value >= before.clock.value)
    ensures after.clock == before.clock || after.clock == Some(s.capturedAt)
  {
    hide Stored, SliceAt, SliceOf, NewestBindings, Advances, RowsBelong;
    NewestFiveMeans(before.snapshots.Keys, before.nextID, after.snapshots.Keys);
    assert after.snapshots.Keys <= before.snapshots.Keys + {before.nextID};
  }

  lemma NewestFiveMeans(ids: set<nat>, next: nat, kept: set<nat>)
    requires |ids| <= 5 && (forall id | id in ids :: id < next) && Newest(kept, ids + {next})
    ensures next in kept && |kept| <= 5
    ensures |ids| < 5 ==> kept == ids + {next}
    ensures |ids| == 5 ==> exists oldest | oldest in ids :: kept == ids - {oldest} + {next} && forall id | id in ids :: oldest <= id
  {
    var all := ids + {next};
    NewestIsKept(kept, all, next);
    assert |all| == |ids| + 1;
    var gone := all - kept;
    assert |gone| == |all| - |kept|;
    if |ids| < 5 {
      assert gone == {};
      assert kept == all;
    } else {
      var oldest :| oldest in gone;
      OnlyOne(gone, oldest);
      assert kept == ids - {oldest} + {next};
      forall id | id in ids
        ensures oldest <= id
      {
      }
    }
  }

  lemma OnlyOne(s: set<nat>, x: nat)
    requires |s| == 1 && x in s
    ensures s == {x}
  {
    assert |s - {x}| == 0;
  }

  /** In which order a load tries: the active snapshot, then the newer before the older. */
  lemma SkippedMeans<P>(db: Database<P>, id: nat)
    requires Skipped(db, id) && id in db.snapshots
    ensures db.active.Some? && db.active.value in db.snapshots && db.active != Some(id) ==> Refused(db, db.active.value)
    ensures db.active != Some(id) ==> forall other | other in db.snapshots && other > id :: Refused(db, other)
  {
    hide Refused;
    if db.active.Some? && db.active.value in db.snapshots && db.active != Some(id) {
      assert Earlier(db.active, db.active.value, id);
    }
    if db.active != Some(id) {
      forall other | other in db.snapshots && other > id
        ensures Refused(db, other)
      {
        assert Earlier(db.active, other, id);
      }
    }
  }

  // Runs: any sequence of calls, with any damage to rows in between.

  datatype Event =
    | Committed(snapshot: Snapshot)
    | Served(id: nat, raw: Snapshot, snapshot: Snapshot)
    | Other // a control save, a clock observation, a failed call, damage to stored rows

  ghost predicate Happens<P>(before: Database<P>, event: Event, after: Database<P>) {
    match event
    case Committed(s) => Commits(before, s, after)
    case Served(id, raw, s) => Shows(before, id, raw, s) && Admissible(before, s) && after.ledger == before.ledger
    case Other => after.ledger == before.ledger
  }

  ghost predicate IsRun<P>(states: seq<Database<P>>, events: seq<Event>) {
    && |states| == |events| + 1
    && forall i, j | 0 <= i < |events| && j == i + 1 :: Happens(states[i], events[i], states[j])
  }

  lemma {:induction false} LedgerNeverRegresses<P>(states: seq<Database<P>>, events: seq<Event>, i: nat, j: nat)
    requires IsRun(states, events) && i <= j < |states|
    ensures Advances(states[i].ledger, states[j].ledger)
    decreases j - i
  {
    if i < j {
      LedgerNeverRegresses(states, events, i, j - 1);
      assert Happens(states[j - 1], events[j - 1], states[j]);
      AdvancesTransitive(states[i].ledger, states[j - 1].ledger, states[j].ledger);
    }
  }

  /** What an event shows of bindings, and the ledger right after it. */
  lemma ShownIsRecorded<P>(states: seq<Database<P>>, events: seq<Event>, i: nat, c: Capability)
    requires IsRun(states, events) && i < |events| && !events[i].Other? && c in events[i].snapshot.capabilities
    ensures IsNewest(states[i + 1].ledger, events[i].snapshot.fabric, c)
  {
    assert Happens(states[i], events[i], states[i + 1]);
    hide Shows, Valid, Stored;
  }

  /** Over any run, a snapshot served after another was committed or served never shows
      an older binding, nor the same version under another signature. */
  lemma ServedBindingsNeverRegress<P>(states: seq<Database<P>>, events: seq<Event>, i: nat, j: nat, c: Capability, d: Capability)
    requires IsRun(states, events) && i < j < |events| && !events[i].Other? && events[j].Served?
    requires c in events[i].snapshot.capabilities && d in events[j].snapshot.capabilities && c.binding.Some? && d.binding.Some?
    requires events[i].snapshot.fabric == events[j].snapshot.fabric && c.device == d.device && c.id == d.id
    ensures c.binding.value.version <= d.binding.value.version
    ensures c.binding.value.version == d.binding.value.version ==> c.binding.value.signature == d.binding.value.signature
  {
    hide IsRun, Happens;
    ShownIsRecorded(states, events, i, c);
    ShownIsRecorded(states, events, j, d);
    IsRunLength(states, events);
    LedgerNeverRegresses(states, events, i + 1, j + 1);
  }

  lemma IsRunLength<P>(states: seq<Database<P>>, events: seq<Event>)
    requires IsRun(states, events)
    ensures |states| == |events| + 1
  {
  }
}
