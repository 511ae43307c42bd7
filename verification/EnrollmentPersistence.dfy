/** The saved form of the Manager's tables, what a restart accepts of it, and what it
    rebuilds. */
module EnrollmentPersistence {
  import opened Common
  import opened Identity
  import opened Snapshots
  import opened Enrollment
  import opened EnrollmentHistory
  import opened EnrollmentSafety
  import ShellBinding
  import Sorting

  const PERSISTENT_SCHEMA := "pfremote.enrollment-state/v1"

  datatype Persisted = Persisted(
    schema: string, fabric: string, owner: string, ownerKey: Key, directoryVersion: nat, grantVersion: nat,
    activations: seq<Activation>, devices: seq<DeviceRecord>, bindings: seq<Binding>,
    ownerIDs: seq<string>, deviceIDs: map<string, seq<string>>, window: int, attempts: nat)

  // ---- listing a table -------------------------------------------------------------------

  function CodeOf(a: Activation): Code { a.code }
  function IDOf(d: DeviceRecord): string { d.id }
  function SubjectOf(b: Binding): (string, string) { (b.device, b.capability) }

  /** The values of a table, each once, in any order. */
  ghost predicate Lists<K, T>(items: seq<T>, name: T -> K, table: map<K, T>) {
    && (forall i, j | 0 <= i < j < |items| :: name(items[i]) != name(items[j]))
    && (forall x | x in items :: name(x) in table && table[name(x)] == x)
    && (forall k | k in table :: name(table[k]) == k && table[k] in items)
  }

  method Values<K, T(==)>(table: map<K, T>, ghost name: T -> K) returns (items: seq<T>)
    requires forall k | k in table :: name(table[k]) == k
    ensures Lists(items, name, table)
  {
    items := [];
    var remaining := table.Keys;
    while remaining != {}
      invariant remaining <= table.Keys
      invariant forall i, j | 0 <= i < j < |items| :: name(items[i]) != name(items[j])
      invariant forall x | x in items :: name(x) in table && name(x) !in remaining && table[name(x)] == x
      invariant forall k | k in table && k !in remaining :: table[k] in items
      decreases |remaining|
    {
      var k :| k in remaining;
      remaining := remaining - {k};
      items := items + [table[k]];
    }
  }

  lemma ListsPermuted<K, T>(items: seq<T>, permuted: seq<T>, name: T -> K, table: map<K, T>)
    requires Lists(items, name, table) && multiset(permuted) == multiset(items)
    ensures Lists(permuted, name, table)
  {
    SameMembers(items, permuted);
    NoDupPermuted(items, permuted);
    assert forall x | x in permuted :: table[name(x)] == x;
  }

  lemma {:induction false} ListsCount<K, T>(items: seq<T>, name: T -> K, table: map<K, T>)
    requires Lists(items, name, table)
    ensures |items| == |table|
  {
    if items == [] {
      assert table == map[];
    } else {
      var init, last := items[..|items| - 1], items[|items| - 1];
      var rest := table - {name(last)};
      assert items == init + [last];
      forall k | k in rest
        ensures rest[k] in init
      {
        assert table[k] in items;
      }
      ListsCount(init, name, rest);
      assert table.Keys == rest.Keys + {name(last)};
    }
  }

  /** The table a list is read back into; a later entry replaces an earlier one. */
  function Collected<K, T>(items: seq<T>, name: T -> K): map<K, T> {
    if items == [] then map[]
    else Collected(items[..|items| - 1], name)[name(items[|items| - 1]) := items[|items| - 1]]
  }

  lemma {:induction false} CollectedFinds<K, T>(items: seq<T>, name: T -> K)
    ensures forall k | k in Collected(items, name) :: Collected(items, name)[k] in items && name(Collected(items, name)[k]) == k
    ensures forall x | x in items :: name(x) in Collected(items, name)
  {
    if items != [] {
      var init, last := items[..|items| - 1], items[|items| - 1];
      assert items == init + [last];
      CollectedFinds(init, name);
    }
  }

  /** Listing a table and reading the list back gives the table. */
  lemma ListedReadsBack<K, T>(items: seq<T>, name: T -> K, table: map<K, T>)
    requires Lists(items, name, table)
    ensures Collected(items, name) == table
  {
    CollectedFinds(items, name);
    var back := Collected(items, name);
    assert forall k | k in table :: k in back;
    assert forall k | k in back :: k in table && back[k] == table[k];
  }

  // ---- the snapshot of the tables ---------------------------------------------------------

  predicate BindingBefore(a: Binding, b: Binding) {
    if a.device != b.device then Before(a.device, b.device) else Before(a.capability, b.capability)
  }

  lemma BindingsAreOrdered()
    ensures Sorting.WeakOrder(BindingBefore)
  {
    Sorting.BeforeIsOrder();
    Sorting.OrderIsWeak(Before);
  }

  /** The buckets that hold any request ID; empty ones are not saved. */
  function Filled(order: map<string, seq<string>>): map<string, seq<string>> {
    map d | d in order && order[d] != [] :: order[d]
  }

  ghost predicate IsSnapshot(p: Persisted, c: Core) {
    && p.schema == PERSISTENT_SCHEMA && p.fabric == c.fabric && p.owner == c.owner && p.ownerKey == c.ownerKey
    && p.directoryVersion == c.directoryVersion && p.grantVersion == c.grantVersion && p.window == c.window && p.attempts == c.attempts
    && Lists(p.activations, CodeOf, c.activations) && Lists(p.devices, IDOf, c.devices)
    && Lists(p.bindings, SubjectOf, c.bindings) && Sorting.Sorted(BindingBefore, p.bindings)
    && p.ownerIDs == c.ownerOrder && p.deviceIDs == Filled(c.deviceOrder)
  }

  /** The part of the tables that is saved. */
  predicate SameDurably(c: Core, d: Core) {
    d == c.(deviceIDs := d.deviceIDs, deviceSince := d.deviceSince)
  }

  lemma SameSnapshot(p: Persisted, c: Core, d: Core)
    requires IsSnapshot(p, c) && SameDurably(c, d)
    ensures IsSnapshot(p, d)
  {
  }

  // ---- what a restart accepts -----------------------------------------------------------------

  predicate HeaderOK(p: Persisted) {
    && p.schema == PERSISTENT_SCHEMA
    && if p.fabric == "" then
         p.owner == "" && p.ownerKey == "" && p.directoryVersion == 0 && p.grantVersion == 0
         && p.devices == [] && p.activations == [] && p.bindings == []
       else
         ValidKey(p.ownerKey) && ValidIdentifier(p.fabric, LONGEST_ENROLLMENT_IDENTIFIER) && p.owner != ""
         && p.directoryVersion != 0 && p.grantVersion != 0 && p.owner == DeviceID(p.ownerKey)
  }

  predicate WithinLimits(p: Persisted) {
    |p.activations| <= MAX_PENDING_ACTIVATIONS && |p.deviceIDs| <= MAX_DEVICE_REPLAY_BUCKETS
  }

  predicate DeviceReadable(d: DeviceRecord) {
    ValidKey(d.key) && d.id != "" && d.status in {ACTIVE, REVOKED} && d.id == DeviceID(d.key)
  }

  predicate DistinctNames<K(==), T>(items: seq<T>, name: T -> K) {
    forall i, j | 0 <= i < j < |items| :: name(items[i]) != name(items[j])
  }

  predicate DevicesReadable(devices: seq<DeviceRecord>) {
    DistinctNames(devices, IDOf) && forall d | d in devices :: DeviceReadable(d)
  }

  predicate BindingReadable(b: Binding, fabric: string, devices: map<string, DeviceRecord>) {
    b.device in devices && ShellBinding.Verify(b.device, devices[b.device].key, b.capability, fabric, b)
  }

  predicate BindingsReadable(bindings: seq<Binding>, fabric: string, devices: map<string, DeviceRecord>) {
    && |bindings| <= MAX_PUBLISHED_BINDINGS && DistinctNames(bindings, SubjectOf)
    && forall b | b in bindings :: BindingReadable(b, fabric, devices)
  }

  predicate ActivationReadable(a: Activation) {
    && ValidKey(a.key) && a.device != "" && a.status in {PENDING, APPROVED} && a.interval > 0 && a.expiresAt != 0
    && a.device == DeviceID(a.key)
  }

  predicate ActivationsReadable(activations: seq<Activation>) {
    DistinctNames(activations, CodeOf) && forall a | a in activations :: ActivationReadable(a)
  }

  predicate IDsReadable(ids: seq<string>, capacity: nat) {
    |ids| <= capacity && NoDup(ids) && forall id | id in ids :: ValidRequestID(id)
  }

  predicate BucketsReadable(buckets: map<string, seq<string>>) {
    forall d | d in buckets :: d != "" && IDsReadable(buckets[d], MAX_DEVICE_REPLAY_IDS)
  }

  predicate OwnerReadable(p: Persisted) {
    p.fabric != "" ==>
      var devices := Collected(p.devices, IDOf);
      p.owner in devices && devices[p.owner].status == ACTIVE && devices[p.owner].key == p.ownerKey
  }

  predicate Acceptable(p: Persisted) {
    && HeaderOK(p) && WithinLimits(p) && DevicesReadable(p.devices)
    && BindingsReadable(p.bindings, p.fabric, Collected(p.devices, IDOf))
    && ActivationsReadable(p.activations) && IDsReadable(p.ownerIDs, MAX_OWNER_REPLAY_IDS) && BucketsReadable(p.deviceIDs)
    && OwnerReadable(p)
  }

  /** The user codes of a list of activations, a later one replacing an earlier one. */
  function UserCodesOf(activations: seq<Activation>): map<Code, Code> {
    if activations == [] then map[]
    else UserCodesOf(activations[..|activations| - 1])[activations[|activations| - 1].userCode := activations[|activations| - 1].code]
  }

  /** A restart reads the clock once for each bucket. */
  type Readings = map<string, Clock>

  function ReadAt(stamps: Readings, device: string): Clock {
    if device in stamps then stamps[device] else 1
  }

  function BucketSets(buckets: map<string, seq<string>>): map<string, set<string>> {
    map d | d in buckets :: Elems(buckets[d])
  }

  function StampsOf(buckets: map<string, seq<string>>, stamps: Readings): map<string, int> {
    map d | d in buckets :: ReadAt(stamps, d)
  }

  /** The tables a restart rebuilds with these time stamps; `log` is the history so far. */
  function Rebuilt(p: Persisted, stamps: Readings, log: seq<Event>): Core {
    Core(p.fabric, p.owner, p.ownerKey, p.directoryVersion, p.grantVersion,
         Collected(p.activations, CodeOf), UserCodesOf(p.activations), Collected(p.devices, IDOf),
         Elems(p.ownerIDs), p.ownerIDs,
         BucketSets(p.deviceIDs), Filled(p.deviceIDs), StampsOf(p.deviceIDs, stamps),
         p.window, p.attempts, Collected(p.bindings, SubjectOf), log)
  }

  // ---- what a restart of a saved state rebuilds ------------------------------------------------

  /** The same tables with fresh time stamps and without empty buckets. */
  function Reopened(c: Core, stamps: Readings): Core {
    c.(deviceIDs := map d | d in c.deviceIDs && d in c.deviceOrder :: c.deviceIDs[d],
       deviceSince := StampsOf(c.deviceOrder, stamps))
  }

  lemma {:induction false} UserCodesLinked(activations: seq<Activation>)
    ensures forall u | u in UserCodesOf(activations) :: exists a | a in activations :: a.userCode == u && UserCodesOf(activations)[u] == a.code
    ensures forall a | a in activations :: a.userCode in UserCodesOf(activations)
  {
    if activations != [] {
      var init, last := activations[..|activations| - 1], activations[|activations| - 1];
      assert activations == init + [last];
      UserCodesLinked(init);
    }
  }

  lemma UserCodesReadBack(c: Core, activations: seq<Activation>)
    requires Lists(activations, CodeOf, c.activations) && CodesLinked(c)
    ensures UserCodesOf(activations) == c.userCodes
  {
    UserCodesLinked(activations);
    var back := UserCodesOf(activations);
    forall u | u in back
      ensures u in c.userCodes && back[u] == c.userCodes[u]
    {
      var a :| a in activations && a.userCode == u && back[u] == a.code;
      assert CodeOf(a) in c.activations;
    }
    forall u | u in c.userCodes
      ensures u in back
    {
      assert c.activations[c.userCodes[u]] in activations;
    }
  }

  lemma BucketsReadBack(c: Core, stamps: Readings)
    requires BucketsOK(c)
    ensures Filled(c.deviceOrder) == c.deviceOrder && Filled(Filled(c.deviceOrder)) == c.deviceOrder
    ensures BucketSets(c.deviceOrder) == Reopened(c, stamps).deviceIDs
  {
    hide DeviceHistory, LastN;
    forall d: string | d in c.deviceOrder
      ensures c.deviceOrder[d] != [] && d in c.deviceIDs && Elems(c.deviceOrder[d]) == c.deviceIDs[d]
    {
      assert BucketOK(c, d);
    }
  }

  /** Reading a snapshot of the tables back rebuilds them, whatever order it lists them in. */
  lemma SnapshotReadsBack(p: Persisted, c: Core, stamps: Readings)
    requires Inv(c) && IsSnapshot(p, c)
    ensures Rebuilt(p, stamps, c.log) == Reopened(c, stamps)
  {
    hide Lists, Histories, CodesLinked, BucketsOK, Collected, UserCodesOf;
    InvParts(c);
    ListedReadsBack(p.activations, CodeOf, c.activations);
    ListedReadsBack(p.devices, IDOf, c.devices);
    ListedReadsBack(p.bindings, SubjectOf, c.bindings);
    UserCodesReadBack(c, p.activations);
    BucketsReadBack(c, stamps);
    OwnerSetReadsBack(c);
  }

  lemma OwnerSetReadsBack(c: Core)
    requires OwnerReplayOK(c)
    ensures c.ownerIDs == Elems(c.ownerOrder)
  {
  }

  lemma HeaderReadable(p: Persisted, c: Core)
    requires Inv(c) && IsSnapshot(p, c)
    ensures HeaderOK(p)
  {
    hide ValidKey, ValidIdentifier, DeviceID, Lawful, BucketsOK, OwnerReplayOK, ActivationsTraced;
    if c.fabric == "" {
      EmptyLists(p, c);
    } else {
      OwnerIDIsNotEmpty(c);
    }
  }

  lemma EmptyLists(p: Persisted, c: Core)
    requires IsSnapshot(p, c) && c == Empty()
    ensures p.devices == [] && p.activations == [] && p.bindings == []
  {
    ListsCount(p.devices, IDOf, c.devices);
    ListsCount(p.activations, CodeOf, c.activations);
    ListsCount(p.bindings, SubjectOf, c.bindings);
  }

  lemma OwnerIDIsNotEmpty(c: Core)
    requires OwnerActive(c)
    ensures c.owner != ""
  {
  }

  lemma DevicesAreReadable(p: Persisted, c: Core)
    requires DevicesOK(c) && Lists(p.devices, IDOf, c.devices)
    ensures DevicesReadable(p.devices)
  {
    hide ValidKey;
    forall d | d in p.devices
      ensures DeviceReadable(d)
    {
      assert DeviceOK(c.devices[IDOf(d)], IDOf(d));
    }
  }

  lemma BindingsAreReadable(p: Persisted, c: Core)
    requires BindingsOK(c) && Lists(p.bindings, SubjectOf, c.bindings)
    ensures BindingsReadable(p.bindings, c.fabric, c.devices)
  {
    hide ShellBinding.Verify;
    ListsCount(p.bindings, SubjectOf, c.bindings);
    forall b | b in p.bindings
      ensures BindingReadable(b, c.fabric, c.devices)
    {
      assert BindingOK(c, SubjectOf(b));
    }
  }

  lemma ActivationsAreReadable(p: Persisted, c: Core)
    requires ActivationsOK(c) && Lists(p.activations, CodeOf, c.activations)
    ensures ActivationsReadable(p.activations) && |p.activations| <= MAX_PENDING_ACTIVATIONS
  {
    hide ValidKey, CodesLinked, OneEach, PendingNotActive;
    ListsCount(p.activations, CodeOf, c.activations);
    forall a | a in p.activations
      ensures ActivationReadable(a)
    {
      assert ActivationOK(c.activations[CodeOf(a)], CodeOf(a));
    }
  }

  lemma IDsAreReadable(c: Core)
    requires Lawful(c.log) && OwnerReplayOK(c) && BucketsOK(c)
    ensures IDsReadable(c.ownerOrder, MAX_OWNER_REPLAY_IDS) && BucketsReadable(Filled(c.deviceOrder))
  {
    hide Lawful, ValidRequestID, NeverInWindow;
    OwnerIDsNeverInWindow(c.log);
    WindowHasNoDuplicates(OwnerHistory(c.log), MAX_OWNER_REPLAY_IDS);
    assert forall id | id in c.ownerOrder :: id in c.ownerIDs;
    forall d: string | d in Filled(c.deviceOrder)
      ensures d != "" && IDsReadable(c.deviceOrder[d], MAX_DEVICE_REPLAY_IDS)
    {
      BucketIsReadable(c, d);
    }
  }

  lemma BucketIsReadable(c: Core, d: string)
    requires Lawful(c.log) && BucketsOK(c) && d in c.deviceOrder
    ensures d != "" && IDsReadable(c.deviceOrder[d], MAX_DEVICE_REPLAY_IDS)
  {
    hide Lawful, ValidRequestID, NeverInWindow;
    DeviceIDsNeverInWindow(c.log, d);
    WindowHasNoDuplicates(DeviceHistory(c.log, d), MAX_DEVICE_REPLAY_IDS);
    assert BucketOK(c, d);
    assert forall id | id in c.deviceOrder[d] :: id in Bucket(c, d);
  }

  /** A restart accepts the saved state exactly when it has at most 4096 buckets: only
      the begin of an activation is held to that limit, other requests are not. */
  lemma RestartAcceptsExactly(p: Persisted, c: Core)
    requires Inv(c) && IsSnapshot(p, c)
    ensures Acceptable(p) <==> |c.deviceOrder| <= 4096
  {
    hide Lists, HeaderOK, DevicesReadable, BindingsReadable, ActivationsReadable, IDsReadable, BucketsReadable, Collected, Lawful, CodesLinked;
    InvParts(c);
    HeaderReadable(p, c);
    TablesParts(c);
    DevicesAreReadable(p, c);
    BindingsAreReadable(p, c);
    ActivationsAreReadable(p, c);
    IDsAreReadable(c);
    ListedReadsBack(p.devices, IDOf, c.devices);
    BucketsReadBack(c, map[]);
  }

  lemma TablesParts(c: Core)
    requires Tables(c)
    ensures ActivationsOK(c) && DevicesOK(c) && BindingsOK(c) && (c.fabric != "" ==> OwnerActive(c))
  {
  }

  // ---- whatever is accepted is consistent ------------------------------------------------------

  /** The Owner is one of the Devices, active under the Owner's key, or nothing is set up. */
  predicate OwnerStands(c: Core) {
    if c.fabric == "" then
      c.owner == "" && c.directoryVersion == 0 && c.grantVersion == 0 && c.devices == map[] && c.activations == map[] && c.bindings == map[]
    else
      && c.directoryVersion > 0 && c.grantVersion > 0 && ValidIdentifier(c.fabric, 64)
      && c.owner in c.devices && c.devices[c.owner].status == "active" && c.devices[c.owner].key == c.ownerKey
  }

  /** Every Device is known under the ID its key has. */
  predicate DevicesStand(c: Core) {
    forall id | id in c.devices ::
      && c.devices[id].id == id && ValidKey(c.devices[id].key) && id == "device-" + c.devices[id].key
      && c.devices[id].status in {"active", "revoked"}
  }

  /** Every binding was signed by the Device it is kept under. */
  predicate BindingsStand(c: Core) {
    && |c.bindings| <= 4096
    && forall k | k in c.bindings ::
         && k.0 in c.devices
         && ShellBinding.Verify(k.0, c.devices[k.0].key, k.1, c.fabric, c.bindings[k])
  }

  predicate ActivationsStand(c: Core) {
    && |c.activations| <= 256
    && (forall code | code in c.activations ::
          var a := c.activations[code];
          a.code == code && ValidKey(a.key) && a.device == "device-" + a.key && a.status in {"pending", "approved"} && a.interval > 0)
    && forall u | u in c.userCodes :: c.userCodes[u] in c.activations
  }

  /** The sets of remembered request IDs are those of the bounded queues. */
  predicate ReplaysStand(c: Core) {
    && |c.ownerOrder| <= 4096 && NoDup(c.ownerOrder) && c.ownerIDs == Elems(c.ownerOrder)
    && c.deviceIDs.Keys == c.deviceSince.Keys && |c.deviceIDs| <= 4096 && c.deviceOrder.Keys <= c.deviceIDs.Keys
    && (forall id | id in c.ownerIDs :: ValidRequestID(id))
    && forall d | d in c.deviceIDs ::
         var order := if d in c.deviceOrder then c.deviceOrder[d] else [];
         && d != "" && |order| <= 1024 && NoDup(order) && c.deviceIDs[d] == Elems(order)
         && forall id | id in order :: ValidRequestID(id)
  }

  /** A saved state may come from anywhere: if a restart accepts it, the tables it rebuilds
      are consistent. */
  lemma AcceptedIsConsistent(p: Persisted, stamps: Readings, log: seq<Event>)
    requires Acceptable(p)
    ensures var c := Rebuilt(p, stamps, log);
            OwnerStands(c) && DevicesStand(c) && BindingsStand(c) && ActivationsStand(c) && ReplaysStand(c)
  {
    hide ValidKey, ValidIdentifier, Collected, UserCodesOf, DevicesReadable, BindingsReadable, ActivationsReadable, IDsReadable,
      BucketsReadable, DevicesStand, BindingsStand, ActivationsStand, ReplaysStand, HeaderOK;
    OwnerStandsAfter(p, stamps, log);
    DevicesStandAfter(p, stamps, log);
    BindingsStandAfter(p, stamps, log);
    ActivationsStandAfter(p, stamps, log);
    BucketsStand(p, stamps, log);
  }

  lemma OwnerStandsAfter(p: Persisted, stamps: Readings, log: seq<Event>)
    requires HeaderOK(p) && OwnerReadable(p)
    ensures OwnerStands(Rebuilt(p, stamps, log))
  {
    hide ValidKey, ValidIdentifier;
    if p.fabric == "" {
      assert p.devices == [] && p.activations == [] && p.bindings == [];
    }
  }

  lemma DevicesStandAfter(p: Persisted, stamps: Readings, log: seq<Event>)
    requires DevicesReadable(p.devices)
    ensures DevicesStand(Rebuilt(p, stamps, log))
  {
    hide ValidKey, Collected, UserCodesOf;
    CollectedFinds(p.devices, IDOf);
  }

  lemma BindingsStandAfter(p: Persisted, stamps: Readings, log: seq<Event>)
    requires BindingsReadable(p.bindings, p.fabric, Collected(p.devices, IDOf))
    ensures BindingsStand(Rebuilt(p, stamps, log))
  {
    hide ShellBinding.Verify, Collected, UserCodesOf;
    CollectedFinds(p.bindings, SubjectOf);
    CollectedIsNoLonger(p.bindings, SubjectOf);
  }

  lemma ActivationsStandAfter(p: Persisted, stamps: Readings, log: seq<Event>)
    requires ActivationsReadable(p.activations) && |p.activations| <= MAX_PENDING_ACTIVATIONS
    ensures ActivationsStand(Rebuilt(p, stamps, log))
  {
    hide ValidKey, Collected, UserCodesOf;
    CollectedFinds(p.activations, CodeOf);
    CollectedIsNoLonger(p.activations, CodeOf);
    UserCodesLinked(p.activations);
  }

  lemma {:induction false} CollectedIsNoLonger<K, T>(items: seq<T>, name: T -> K)
    ensures |Collected(items, name)| <= |items|
  {
    if items != [] {
      var init, last := items[..|items| - 1], items[|items| - 1];
      CollectedIsNoLonger(init, name);
      assert Collected(items, name).Keys == Collected(init, name).Keys + {name(last)};
      assert |Collected(init, name).Keys + {name(last)}| <= |Collected(init, name).Keys| + 1;
    }
  }

  lemma BucketsStand(p: Persisted, stamps: Readings, log: seq<Event>)
    requires IDsReadable(p.ownerIDs, MAX_OWNER_REPLAY_IDS) && BucketsReadable(p.deviceIDs) && |p.deviceIDs| <= MAX_DEVICE_REPLAY_BUCKETS
    ensures ReplaysStand(Rebuilt(p, stamps, log))
  {
    hide ValidRequestID, Collected, UserCodesOf;
    var c := Rebuilt(p, stamps, log);
    assert c.deviceIDs.Keys == p.deviceIDs.Keys == c.deviceSince.Keys;
    assert |c.deviceIDs.Keys| == |p.deviceIDs.Keys|;
    forall d | d in c.deviceIDs
      ensures p.deviceIDs[d] == if d in c.deviceOrder then c.deviceOrder[d] else []
    {
    }
  }

  // ---- a restart keeps the invariant ----------------------------------------------------------

  lemma ReopenedKeeps(c: Core, stamps: Readings)
    requires Inv(c)
    ensures Inv(Reopened(c, stamps))
  {
    hide Inv, Tables, Histories, Lawful, May, OwnerReplayOK, BucketsOK, CountersOK, DevicesTraced, ActivationsTraced;
    InvParts(c);
    var d := Reopened(c, stamps);
    if c.fabric == "" {
      UninitializedIsEmpty(c);
      assert d == c;
    } else {
      SameTables(c, d);
      ReopenedBuckets(c, stamps);
      SameLog(c, d);
      InvWhole(d);
    }
  }

  lemma ReopenedBuckets(c: Core, stamps: Readings)
    requires BucketsOK(c)
    ensures BucketsOK(Reopened(c, stamps))
  {
    hide DeviceHistory, LastN;
    var d := Reopened(c, stamps);
    forall device: string
      ensures BucketOK(d, device)
    {
      assert BucketOK(c, device);
    }
  }
}
