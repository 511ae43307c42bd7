/** The enrollment Manager: methods that update its tables step by step, save after each
    change, and stop for good once a save has failed. */
module EnrollmentManager {
  import opened Common
  import opened Identity
  import opened Snapshots
  import opened Enrollment
  import opened EnrollmentHistory
  import opened EnrollmentSafety
  import opened EnrollmentPersistence
  import ShellBinding
  import SnapshotStore
  import Sorting

  type Store = SnapshotStore.Store<Persisted>
  type Database = SnapshotStore.Database<Persisted>

  function RevokedIn(c: Core): set<string> {
    set d | d in c.devices && c.devices[d].status == REVOKED
  }

  function NowRevokedKeys(before: set<string>, status: (string, bool)): set<string> {
    if status.1 then before + {status.0} else before - {status.0}
  }

  /** What the database holds: nothing yet, or a snapshot of these tables together with
      exactly their revoked Devices. */
  ghost predicate Durable(db: Database, stored: Option<Core>) {
    match stored
    case None => db.control.None? && db.revocations == map[]
    case Some(c) =>
      Inv(c) && db.control.Some? && IsSnapshot(db.control.value, c) && db.revocations.Keys == RevokedIn(c)
  }

  /** What the Manager shares the database with: the snapshots and their ledger. */
  function Beside(db: Database): Database {
    db.(control := None, versions := None, revocations := map[])
  }

  /** The Device status an answer announces; it is saved together with the tables. */
  function Announced(reply: Reply): Option<(string, bool)> {
    match reply
    case Initialized(_, owner, _) => Some((owner, false))
    case NowActive(_, device, _, _) => Some((device, false))
    case NowRevoked(device, _, _) => Some((device, true))
    case _ => None
  }

  function Saved(before: Database, payload: Persisted, c: Core, status: Option<(string, bool)>): Database {
    match status
    case None => before.(control := Some(payload))
    case Some(update) => SnapshotStore.WithStatus(before, payload, update.0, update.1, c.directoryVersion, c.grantVersion)
  }

  /** One save of these tables, with a Device's new status if it changed. */
  ghost predicate Saves(before: Database, c: Core, status: Option<(string, bool)>, after: Database) {
    exists payload :: IsSnapshot(payload, c) && after == Saved(before, payload, c, status)
  }

  /** What a call leaves in the database: nothing new, or its last save. An earlier save of
      the same call is overwritten by it. */
  ghost predicate Writes(before: Database, storedBefore: Option<Core>, status: Option<(string, bool)>, after: Database,
                         stored: Option<Core>) {
    || (after == before && stored == storedBefore && status.None?)
    || (stored.Some? && Saves(before, stored.value, status, after))
  }

  lemma WritesOver(before: Database, storedBefore: Option<Core>, c: Core, between: Database, status: Option<(string, bool)>,
                   after: Database, stored: Option<Core>)
    requires Saves(before, c, None, between) && Writes(between, Some(c), status, after, stored)
    ensures Writes(before, storedBefore, status, after, stored)
  {
    hide IsSnapshot;
    if after != between || status.Some? {
      var payload :| IsSnapshot(payload, stored.value) && after == Saved(between, payload, stored.value, status);
      assert after == Saved(before, payload, stored.value, status);
    }
  }

  /** The snapshots and their ledger are not touched. */
  lemma WritesBeside(before: Database, storedBefore: Option<Core>, status: Option<(string, bool)>, after: Database, stored: Option<Core>)
    requires Writes(before, storedBefore, status, after, stored)
    ensures Beside(after) == Beside(before)
  {
    hide IsSnapshot;
  }

  /** The tables in memory say what was last saved. */
  predicate InSync(stored: Option<Core>, c: Core) {
    match stored
    case None => c == Empty()
    case Some(s) => SameDurably(s, c)
  }

  /** One call of a healthy Manager: the plan is carried out, or a save of it failed and
      nothing after the save before it is stored. */
  ghost predicate Executes(plan: Plan, storedBefore: Option<Core>, after: Core, failed: bool, stored: Option<Core>, reply: Reply) {
    if failed then
      && reply == Fault(PersistenceFailed)
      && exists k | 0 <= k < |plan.saves| :: after == plan.saves[k] && stored == SavedUpTo(plan, storedBefore, k)
    else after == plan.final && reply == plan.reply && stored == SavedUpTo(plan, storedBefore, |plan.saves|)
  }

  /** A Manager that has failed to save answers nothing else any more. */
  ghost predicate Outcome(failedBefore: bool, plan: Plan, before: Core, storedBefore: Option<Core>, after: Core, failed: bool,
                          stored: Option<Core>, reply: Reply) {
    if failedBefore then failed && after == before && stored == storedBefore && reply == Fault(PersistenceFailed)
    else Executes(plan, storedBefore, after, failed, stored, reply)
  }

  ghost function SavedUpTo(plan: Plan, before: Option<Core>, k: nat): Option<Core>
    requires k <= |plan.saves|
  {
    if k == 0 then before else Some(plan.saves[k - 1])
  }

  // ---- restoring -----------------------------------------------------------------------

  lemma CollectedStep<K, T>(list: seq<T>, i: nat, name: T -> K)
    requires i < |list|
    ensures Collected(list[..i + 1], name) == Collected(list[..i], name)[name(list[i]) := list[i]]
    ensures DistinctNames(list[..i + 1], name) <==> DistinctNames(list[..i], name) && name(list[i]) !in Collected(list[..i], name)
    ensures DistinctNames(list, name) ==> DistinctNames(list[..i + 1], name)
  {
    assert list[..i + 1][..i] == list[..i] && list[..i + 1][i] == list[i];
    CollectedFinds(list[..i], name);
    if name(list[i]) in Collected(list[..i], name) {
      var k :| 0 <= k < i && list[k] == Collected(list[..i], name)[name(list[i])];
      assert list[..i + 1][k] == list[k];
    } else {
      forall k | 0 <= k < i
        ensures name(list[k]) != name(list[i])
      {
        assert list[..i][k] in list[..i];
      }
    }
  }

  lemma OneMore<T>(list: seq<T>, i: nat)
    requires i < |list|
    ensures forall x :: x in list[..i + 1] <==> x in list[..i] || x == list[i]
    ensures forall x | x in list[..i + 1] :: x in list
    ensures list[..|list|] == list
  {
    assert list[..i + 1] == list[..i] + [list[i]];
  }

  lemma DevicesStep(list: seq<DeviceRecord>, i: nat)
    requires i < |list|
    ensures Collected(list[..i + 1], IDOf) == Collected(list[..i], IDOf)[list[i].id := list[i]]
    ensures DevicesReadable(list[..i + 1]) <==>
            DevicesReadable(list[..i]) && DeviceReadable(list[i]) && list[i].id !in Collected(list[..i], IDOf)
    ensures DevicesReadable(list) ==> DevicesReadable(list[..i + 1])
  {
    hide Collected, DeviceReadable, DistinctNames;
    CollectedStep(list, i, IDOf);
    OneMore(list, i);
  }

  method RestoreDevices(list: seq<DeviceRecord>) returns (devices: map<string, DeviceRecord>, ok: bool)
    ensures ok <==> DevicesReadable(list)
    ensures ok ==> devices == Collected(list, IDOf)
  {
    devices := map[];
    assert DevicesReadable(list[..0]);
    hide Collected, DevicesReadable, ValidKey, DeviceID;
    for i := 0 to |list|
      invariant DevicesReadable(list[..i]) && devices == Collected(list[..i], IDOf)
    {
      var value := list[i];
      DevicesStep(list, i);
      if !ValidKey(value.key) || value.id == "" || value.id in devices || (value.status != ACTIVE && value.status != REVOKED) {
        return devices, false;
      }
      if value.id != DeviceID(value.key) {
        return devices, false;
      }
      devices := devices[value.id := value];
    }
    assert list[..|list|] == list;
    ok := true;
  }

  lemma BindingsStep(list: seq<Binding>, i: nat, fabric: string, devices: map<string, DeviceRecord>)
    requires i < |list| <= MAX_PUBLISHED_BINDINGS
    ensures Collected(list[..i + 1], SubjectOf) == Collected(list[..i], SubjectOf)[(list[i].device, list[i].capability) := list[i]]
    ensures BindingsReadable(list[..i + 1], fabric, devices) <==>
            BindingsReadable(list[..i], fabric, devices) && BindingReadable(list[i], fabric, devices)
            && (list[i].device, list[i].capability) !in Collected(list[..i], SubjectOf)
    ensures BindingsReadable(list, fabric, devices) ==> BindingsReadable(list[..i + 1], fabric, devices)
  {
    hide Collected, BindingReadable, DistinctNames;
    CollectedStep(list, i, SubjectOf);
    OneMore(list, i);
  }

  method RestoreBindings(list: seq<Binding>, fabric: string, devices: map<string, DeviceRecord>)
    returns (bindings: map<(string, string), Binding>, ok: bool)
    ensures ok <==> BindingsReadable(list, fabric, devices)
    ensures ok ==> bindings == Collected(list, SubjectOf)
  {
    bindings := map[];
    if |list| > MAX_PUBLISHED_BINDINGS {
      return bindings, false;
    }
    assert BindingsReadable(list[..0], fabric, devices);
    hide Collected, BindingsReadable, ShellBinding.Verify;
    for i := 0 to |list|
      invariant BindingsReadable(list[..i], fabric, devices) && bindings == Collected(list[..i], SubjectOf)
    {
      var binding := list[i];
      var key := (binding.device, binding.capability);
      BindingsStep(list, i, fabric, devices);
      if binding.device !in devices || key in bindings {
        return bindings, false;
      }
      var verified := ShellBinding.VerifyBinding(binding.device, devices[binding.device].key, binding.capability, fabric, binding);
      if !verified {
        return bindings, false;
      }
      bindings := bindings[key := binding];
    }
    assert list[..|list|] == list;
    ok := true;
  }

  lemma ActivationsStep(list: seq<Activation>, i: nat)
    requires i < |list|
    ensures Collected(list[..i + 1], CodeOf) == Collected(list[..i], CodeOf)[list[i].code := list[i]]
    ensures UserCodesOf(list[..i + 1]) == UserCodesOf(list[..i])[list[i].userCode := list[i].code]
    ensures ActivationsReadable(list[..i + 1]) <==>
            ActivationsReadable(list[..i]) && ActivationReadable(list[i]) && list[i].code !in Collected(list[..i], CodeOf)
    ensures ActivationsReadable(list) ==> ActivationsReadable(list[..i + 1])
  {
    hide Collected, ActivationReadable, DistinctNames;
    CollectedStep(list, i, CodeOf);
    OneMore(list, i);
    assert list[..i + 1][..i] == list[..i];
  }

  method RestoreActivations(list: seq<Activation>) returns (activations: map<Code, Activation>, userCodes: map<Code, Code>, ok: bool)
    ensures ok <==> ActivationsReadable(list)
    ensures ok ==> activations == Collected(list, CodeOf) && userCodes == UserCodesOf(list)
  {
    activations, userCodes := map[], map[];
    assert ActivationsReadable(list[..0]);
    hide Collected, UserCodesOf, ActivationsReadable, ValidKey, DeviceID;
    for i := 0 to |list|
      invariant ActivationsReadable(list[..i]) && activations == Collected(list[..i], CodeOf) && userCodes == UserCodesOf(list[..i])
    {
      var value := list[i];
      ActivationsStep(list, i);
      if !ValidKey(value.key) || value.device == "" || (value.status != PENDING && value.status != APPROVED)
         || value.interval <= 0 || value.expiresAt == 0 || value.device != DeviceID(value.key) {
        return activations, userCodes, false;
      }
      if value.code in activations {
        return activations, userCodes, false;
      }
      activations := activations[value.code := value];
      userCodes := userCodes[value.userCode := value.code];
    }
    assert list[..|list|] == list;
    ok := true;
  }

  /** One queue of request IDs with its set. */
  method RestoreIDs(list: seq<string>, capacity: nat) returns (ids: set<string>, ok: bool)
    ensures ok <==> IDsReadable(list, capacity)
    ensures ok ==> ids == Elems(list)
  {
    ids := {};
    if |list| > capacity {
      return ids, false;
    }
    for i := 0 to |list|
      invariant IDsReadable(list[..i], capacity) && ids == Elems(list[..i])
    {
      var id := list[i];
      assert list[..i + 1] == list[..i] + [id] && id in list;
      if !ValidRequestID(id) {
        return ids, false;
      }
      if id in ids {
        var k :| 0 <= k < i && list[k] == id;
        return ids, false;
      }
      ids := ids + {id};
    }
    assert list[..|list|] == list;
    ok := true;
  }

  /** The buckets read so far. */
  predicate BucketsSoFar(buckets: map<string, seq<string>>, done: set<string>, stamps: Readings, ids: map<string, set<string>>,
                         order: map<string, seq<string>>, since: map<string, int>) {
    && ids.Keys == done && since.Keys == done && done <= buckets.Keys && order.Keys <= done
    && (forall d | d in done :: d != "" && IDsReadable(buckets[d], MAX_DEVICE_REPLAY_IDS) && ids[d] == Elems(buckets[d]) && since[d] == ReadAt(stamps, d))
    && (forall d | d in done :: d in order <==> buckets[d] != [])
    && (forall d | d in order :: order[d] == buckets[d])
  }

  lemma AllBucketsRead(buckets: map<string, seq<string>>, stamps: Readings, ids: map<string, set<string>>, order: map<string, seq<string>>,
                       since: map<string, int>)
    requires BucketsSoFar(buckets, buckets.Keys, stamps, ids, order, since)
    ensures BucketsReadable(buckets)
    ensures ids == BucketSets(buckets) && order == Filled(buckets) && since == StampsOf(buckets, stamps)
  {
    hide IDsReadable, Elems;
  }

  method RestoreBuckets(buckets: map<string, seq<string>>, stamps: Readings)
    returns (ids: map<string, set<string>>, order: map<string, seq<string>>, since: map<string, int>, ok: bool)
    ensures ok <==> BucketsReadable(buckets)
    ensures ok ==> ids == BucketSets(buckets) && order == Filled(buckets) && since == StampsOf(buckets, stamps)
  {
    hide IDsReadable, Elems;
    ids, order, since := map[], map[], map[];
    var remaining := buckets.Keys;
    while remaining != {}
      invariant remaining <= buckets.Keys && BucketsSoFar(buckets, buckets.Keys - remaining, stamps, ids, order, since)
      decreases |remaining|
    {
      var device :| device in remaining;
      remaining := remaining - {device};
      var restored, readable := RestoreIDs(buckets[device], MAX_DEVICE_REPLAY_IDS);
      if device == "" || !readable {
        return ids, order, since, false;
      }
      ids, since := ids[device := restored], since[device := ReadAt(stamps, device)];
      if buckets[device] != [] {
        order := order[device := buckets[device]];
      }
    }
    assert buckets.Keys - remaining == buckets.Keys;
    AllBucketsRead(buckets, stamps, ids, order, since);
    ok := true;
  }

  /** The tables read back from their lists. */
  datatype ReadTables = ReadTables(devices: map<string, DeviceRecord>, bindings: map<(string, string), Binding>,
                             activations: map<Code, Activation>, userCodes: map<Code, Code>, ownerIDs: set<string>,
                             deviceIDs: map<string, set<string>>, deviceOrder: map<string, seq<string>>, deviceSince: map<string, int>)

  function TablesOf(p: Persisted, stamps: Readings): ReadTables {
    ReadTables(Collected(p.devices, IDOf), Collected(p.bindings, SubjectOf), Collected(p.activations, CodeOf), UserCodesOf(p.activations),
            Elems(p.ownerIDs), BucketSets(p.deviceIDs), Filled(p.deviceIDs), StampsOf(p.deviceIDs, stamps))
  }

  method RestoreTables(p: Persisted, stamps: Readings) returns (tables: ReadTables, ok: bool)
    ensures ok <==> Acceptable(p)
    ensures ok ==> tables == TablesOf(p, stamps)
  {
    hide DevicesReadable, BindingsReadable, ActivationsReadable, IDsReadable, BucketsReadable, HeaderOK, Collected, UserCodesOf, Filled, Elems, BucketSets, StampsOf;
    tables := ReadTables(map[], map[], map[], map[], {}, map[], map[], map[]);
    if !HeaderOK(p) {
      return tables, false;
    }
    if |p.activations| > MAX_PENDING_ACTIVATIONS || |p.deviceIDs| > MAX_DEVICE_REPLAY_BUCKETS {
      return tables, false;
    }
    var devices, devicesOK := RestoreDevices(p.devices);
    if !devicesOK {
      return tables, false;
    }
    var bindings, bindingsOK := RestoreBindings(p.bindings, p.fabric, devices);
    if !bindingsOK {
      return tables, false;
    }
    var activations, userCodes, activationsOK := RestoreActivations(p.activations);
    if !activationsOK {
      return tables, false;
    }
    var ids, idsOK := RestoreIDs(p.ownerIDs, MAX_OWNER_REPLAY_IDS);
    if !idsOK {
      return tables, false;
    }
    var bucketIDs, bucketOrder, bucketSince, bucketsOK := RestoreBuckets(p.deviceIDs, stamps);
    if !bucketsOK {
      return tables, false;
    }
    if p.fabric != "" {
      if p.owner !in devices || devices[p.owner].status != ACTIVE || devices[p.owner].key != p.ownerKey {
        return tables, false;
      }
    }
    tables, ok := ReadTables(devices, bindings, activations, userCodes, ids, bucketIDs, bucketOrder, bucketSince), true;
  }

  /** Adds an ID to a queue and its set; beyond the capacity the oldest one leaves both. */
  method Push(ids: set<string>, order: seq<string>, id: string, capacity: nat) returns (newIDs: set<string>, newOrder: seq<string>)
    ensures newIDs == Remembered(ids, order, id, capacity) && newOrder == Queued(order, id, capacity)
  {
    newIDs, newOrder := ids + {id}, order + [id];
    if |newOrder| > capacity {
      var oldest := newOrder[0];
      newOrder := newOrder[1..];
      newIDs := newIDs - {oldest};
    }
  }

  class Manager {
    var fabric: string
    var owner: string
    var ownerKey: Key
    var directoryVersion: nat
    var grantVersion: nat
    var activations: map<Code, Activation>
    var userCodes: map<Code, Code>
    var devices: map<string, DeviceRecord>
    var ownerIDs: set<string>
    var ownerOrder: seq<string>
    var deviceIDs: map<string, set<string>>
    var deviceOrder: map<string, seq<string>>
    var deviceSince: map<string, int>
    var window: int
    var attempts: nat
    var bindings: map<(string, string), Binding>
    var failed: bool
    const store: Store
    ghost var log: seq<Event>
    ghost var stored: Option<Core> // the tables last saved

    ghost function State(): Core
      reads `fabric, `owner, `ownerKey, `directoryVersion, `grantVersion, `activations, `userCodes, `devices, `ownerIDs, `ownerOrder,
        `deviceIDs, `deviceOrder, `deviceSince, `window, `attempts, `bindings, `log
    {
      Core(fabric, owner, ownerKey, directoryVersion, grantVersion, activations, userCodes, devices, ownerIDs, ownerOrder,
           deviceIDs, deviceOrder, deviceSince, window, attempts, bindings, log)
    }

    ghost predicate Valid()
      reads this, store
    {
      && store.Valid() && Durable(store.db, stored)
      && (!failed ==> Inv(State()) && InSync(stored, State()))
    }

    constructor (store: Store)
      ensures State() == Empty() && !failed && stored.None? && this.store == store
    {
      fabric, owner, ownerKey, directoryVersion, grantVersion := "", "", "", 0, 0;
      activations, userCodes, devices, ownerIDs, ownerOrder := map[], map[], map[], {}, [];
      deviceIDs, deviceOrder, deviceSince, window, attempts, bindings := map[], map[], map[], 0, 0, map[];
      failed, this.store, log, stored := false, store, [], None;
    }

    // ---- persistence ------------------------------------------------------------------

    method SnapshotBuckets() returns (buckets: map<string, seq<string>>)
      ensures buckets == Filled(deviceOrder)
    {
      buckets := map[];
      var remaining := deviceOrder.Keys;
      while remaining != {}
        invariant remaining <= deviceOrder.Keys
        invariant buckets.Keys == set d | d in deviceOrder && d !in remaining && deviceOrder[d] != []
        invariant forall d | d in buckets :: buckets[d] == deviceOrder[d]
        decreases |remaining|
      {
        var device :| device in remaining;
        remaining := remaining - {device};
        var ids := [];
        for i := 0 to |deviceOrder[device]|
          invariant ids == deviceOrder[device][..i]
        {
          ids := ids + [deviceOrder[device][i]];
        }
        if ids != [] {
          buckets := buckets[device := ids];
        }
      }
    }

    method PersistenceSnapshot() returns (p: Persisted)
      requires Tables(State())
      ensures IsSnapshot(p, State())
    {
      NamesMatch(State());
      hide Lists;
      var listedActivations := Values(activations, CodeOf);
      var listedDevices := Values(devices, IDOf);
      var listed := Values(bindings, SubjectOf);
      BindingsAreOrdered();
      var sorted := Sorting.SortedCopy(BindingBefore, listed);
      ListsPermuted(listed, sorted, SubjectOf, bindings);
      var buckets := SnapshotBuckets();
      p := Persisted(PERSISTENT_SCHEMA, fabric, owner, ownerKey, directoryVersion, grantVersion, listedActivations, listedDevices, sorted,
                     ownerOrder, buckets, window, attempts);
    }

    /** Saves the tables, with a Device's new status if it changed. */
    method Persist(status: Option<(string, bool)>) returns (ok: bool)
      requires store.Valid() && Durable(store.db, stored) && !failed && Inv(State())
      requires Saveable(State(), store.db, status)
      modifies this`failed, this`stored, store
      ensures Valid() && State() == old(State()) && failed == !ok && stored == if ok then Some(State()) else old(stored)
      ensures !ok ==> store.db == old(store.db)
      ensures store.faults == old(store.faults) ==> ok
      ensures store.faults >= old(store.faults)
      ensures ok ==> Saves(old(store.db), State(), status, store.db)
    {
      hide Saves, State, Inv, Tables, IsSnapshot, RevokedIn, SnapshotStore.Tidy, ValidIdentifier, Durable, InSync, Saveable, SnapshotStore.WithStatus;
      Fields();
      InvTables(State());
      ghost var before := store.db;
      var payload := PersistenceSnapshot();
      if status.None? {
        SavedPlain(before, payload, State());
        ok := store.SaveControlState(payload);
      } else {
        SavedStatus(before, payload, State(), status.value);
        StatusIsSaveable(State(), status.value.0);
        ok := store.SaveControlStateWithDeviceStatus(payload, status.value.0, status.value.1, directoryVersion, grantVersion);
      }
      if ok {
        stored := Some(State());
        SyncedWithItself(State());
      } else {
        failed := true;
      }
    }

    // ---- changes to the tables --------------------------------------------------------

    method RecordOwnerRequestID(id: string)
      modifies this`ownerIDs, this`ownerOrder, this`log
      ensures State() == AcceptOwnerID(old(State()), id)
    {
      ownerIDs, ownerOrder := Push(ownerIDs, ownerOrder, id, MAX_OWNER_REPLAY_IDS);
      log := log + [OwnerAccepted(id)];
    }

    method StampBucket(device: string, now: int)
      modifies this`deviceSince
      ensures State() == Stamped(old(State()), device, now)
    {
      if device !in deviceIDs {
        deviceSince := deviceSince[device := now];
      }
    }

    method Enqueue(device: string, id: string)
      modifies this`deviceIDs, this`deviceOrder, this`log
      ensures State() == Enqueued(old(State()), device, id)
    {
      var ids := if device in deviceIDs then deviceIDs[device] else {};
      var order := if device in deviceOrder then deviceOrder[device] else [];
      ids, order := Push(ids, order, id, MAX_DEVICE_REPLAY_IDS);
      deviceIDs, deviceOrder := deviceIDs[device := ids], deviceOrder[device := order];
      log := log + [DeviceAccepted(device, id)];
    }

    method RecordDeviceRequestID(device: string, id: string, now: int)
      modifies this`deviceIDs, this`deviceOrder, this`deviceSince, this`log
      ensures State() == AcceptDeviceID(old(State()), device, id, now)
    {
      hide Stamped, Enqueued, State;
      StampBucket(device, now);
      Enqueue(device, id);
    }

    /** verifyOwnerAction: an accepted request is recorded at once. */
    method VerifyOwnerAction(from: string, requestID: string, message: Message, signature: Signature<Message>) returns (refused: Option<FaultCode>)
      modifies this`ownerIDs, this`ownerOrder, this`log
      ensures refused == OwnerFault(old(State()), from, requestID, message, signature)
      ensures State() == if refused.None? then AcceptOwnerID(old(State()), requestID) else old(State())
    {
      if from != owner {
        return Some(OwnerIdentityMismatch);
      }
      if !ValidRequestID(requestID) {
        return Some(InvalidRequestID);
      }
      if !Verifies(ownerKey, message, signature) {
        return Some(InvalidSignature);
      }
      if requestID in ownerIDs {
        return Some(RequestReplayed);
      }
      RecordOwnerRequestID(requestID);
      refused := None;
    }

    method CheckApprovalRateLimit(now: Clock) returns (limited: bool)
      modifies this`window, this`attempts, this`log
      ensures State() == CheckRate(old(State()), now) && limited == (attempts >= MAX_CODE_ATTEMPTS)
    {
      if window == 0 || now - window >= MINUTE {
        window, attempts := now, 0;
        log := log + [WindowOpened(now)];
      }
      limited := attempts >= MAX_CODE_ATTEMPTS;
    }

    method DeleteActivation(code: Code)
      modifies this`activations, this`userCodes
      ensures activations == old(activations) - {code}
      ensures userCodes == old(userCodes) - if code in old(activations) then {old(activations)[code].userCode} else {}
    {
      if code in activations {
        userCodes := userCodes - {activations[code].userCode};
      }
      activations := activations - {code};
    }

    method ActivationForDevice(device: string) returns (found: bool)
      ensures found == exists code | code in activations :: activations[code].device == device
    {
      var remaining := activations.Keys;
      while remaining != {}
        invariant remaining <= activations.Keys
        invariant forall code | code in activations && code !in remaining :: activations[code].device != device
        decreases |remaining|
      {
        var code :| code in remaining;
        remaining := remaining - {code};
        if activations[code].device == device {
          return true;
        }
      }
      found := false;
    }

    method PruneActivations(now: int) returns (changed: bool, ghost users: set<Code>)
      modifies this`activations, this`userCodes
      ensures forall code :: code in activations <==> code in old(activations) && now < old(activations)[code].expiresAt
      ensures forall code | code in activations :: activations[code] == old(activations)[code]
      ensures ExpiredUsers(old(activations), {}, now, users)
      ensures Without(old(userCodes), userCodes, users)
      ensures changed <==> exists code | code in old(activations) :: now >= old(activations)[code].expiresAt
    {
      var remaining := activations.Keys;
      changed, users := false, {};
      while remaining != {}
        invariant remaining <= old(activations).Keys
        invariant forall code :: code in activations <==>
                    code in old(activations) && (code in remaining || now < old(activations)[code].expiresAt)
        invariant forall code | code in activations :: activations[code] == old(activations)[code]
        invariant ExpiredUsers(old(activations), remaining, now, users)
        invariant Without(old(userCodes), userCodes, users)
        invariant changed <==> exists code | code in old(activations) && code !in remaining :: now >= old(activations)[code].expiresAt
        decreases |remaining|
      {
        var code :| code in remaining;
        remaining := remaining - {code};
        if now >= activations[code].expiresAt {
          users := users + {activations[code].userCode};
          DeleteActivation(code);
          changed := true;
        }
      }
    }

    method DropBucket(device: string)
      modifies this`deviceIDs, this`deviceOrder, this`deviceSince
      ensures deviceIDs == old(deviceIDs) - {device} && deviceOrder == old(deviceOrder) - {device} && deviceSince == old(deviceSince) - {device}
    {
      deviceIDs := deviceIDs - {device};
      deviceOrder := deviceOrder - {device};
      deviceSince := deviceSince - {device};
    }

    method PruneBuckets(now: int) returns (changed: bool, ghost gone: set<string>)
      modifies this`deviceIDs, this`deviceOrder, this`deviceSince
      ensures forall d :: d in gone <==> d in old(deviceSince) && StaleAt(old(deviceSince), devices, activations, d, now)
      ensures changed == (gone != {})
      ensures Without(old(deviceIDs), deviceIDs, gone) && Without(old(deviceOrder), deviceOrder, gone)
              && Without(old(deviceSince), deviceSince, gone)
    {
      gone := {};
      var remaining := deviceSince.Keys;
      changed := false;
      while remaining != {}
        invariant remaining <= old(deviceSince).Keys
        invariant forall d :: d in gone <==>
                    d in old(deviceSince) && d !in remaining && StaleAt(old(deviceSince), devices, activations, d, now)
        invariant Without(old(deviceIDs), deviceIDs, gone) && Without(old(deviceOrder), deviceOrder, gone)
                  && Without(old(deviceSince), deviceSince, gone)
        invariant changed == (gone != {})
        decreases |remaining|
      {
        var device :| device in remaining;
        remaining := remaining - {device};
        var pending := ActivationForDevice(device);
        if device !in devices && !pending && now - deviceSince[device] >= DEVICE_REPLAY_RETENTION {
          DropBucket(device);
          gone := gone + {device};
          changed := true;
        }
      }
    }

    method ExpireActivations(now: int) returns (changed: bool)
      modifies this`activations, this`userCodes
      ensures State() == DropExpired(old(State()), now) && changed == (Expired(old(State()), now) != {})
    {
      hide ExpiredUsers, Without, Expired, ExpiredUserCodes;
      ghost var users;
      changed, users := PruneActivations(now);
      PrunedActivations(old(State()), State(), now, users);
      SomeExpired(old(State()), now);
    }

    method ExpireBuckets(now: int) returns (changed: bool)
      modifies this`deviceIDs, this`deviceOrder, this`deviceSince, this`log
      ensures State() == DropBuckets(old(State()), StaleBuckets(old(State()), now)) && changed == (StaleBuckets(old(State()), now) != {})
    {
      hide StaleAt, StaleBuckets, Without;
      ghost var gone;
      changed, gone := PruneBuckets(now);
      if changed {
        log := log + [BucketsDropped(gone)];
      }
      PrunedBuckets(old(State()), State(), gone, now);
    }

    method PruneExpiredState(now: int) returns (changed: bool)
      modifies this`activations, this`userCodes, this`deviceIDs, this`deviceOrder, this`deviceSince, this`log
      ensures State() == Prune(old(State()), now) && changed == Prunes(old(State()), now)
    {
      hide State, DropExpired, DropBuckets, StaleBuckets, Expired;
      var expired := ExpireActivations(now);
      var dropped := ExpireBuckets(now);
      changed := expired || dropped;
    }

    method DropActivation(code: Code)
      modifies this`activations, this`userCodes
      ensures State() == Drop(old(State()), code)
    {
      DeleteActivation(code);
    }

    method RemoveShellBindings(device: string)
      modifies this`bindings
      ensures bindings == map k | k in old(bindings) && old(bindings)[k].device != device :: old(bindings)[k]
    {
      var remaining := bindings.Keys;
      while remaining != {}
        invariant remaining <= old(bindings).Keys
        invariant forall k :: k in bindings <==> k in old(bindings) && (k in remaining || old(bindings)[k].device != device)
        invariant forall k | k in bindings :: bindings[k] == old(bindings)[k]
        decreases |remaining|
      {
        var k :| k in remaining;
        remaining := remaining - {k};
        if bindings[k].device == device {
          bindings := bindings - {k};
        }
      }
    }

    method CountAttempt(now: int)
      modifies this`attempts, this`log
      ensures State() == CountWrongCode(old(State()), now)
    {
      attempts := attempts + 1;
      log := log + [WrongCode(now)];
    }

    method MarkApproved(code: Code, r: Approval, at: int)
      requires code in activations
      modifies this`activations, this`log
      ensures State() == Approve(old(State()), code, r, at)
    {
      activations := activations[code := activations[code].(status := APPROVED)];
      log := log + [ApprovalGiven(code, at, r.requestID, r.version, r.signature)];
    }

    method NameOwner(newFabric: string, newOwner: string, key: Key)
      modifies this`fabric, this`owner, this`ownerKey
      ensures State() == Named(old(State()), newFabric, newOwner, key)
    {
      fabric, owner, ownerKey := newFabric, newOwner, key;
    }

    method RegisterOwner(newOwner: string, key: Key)
      modifies this`directoryVersion, this`grantVersion, this`devices, this`log
      ensures State() == Logged(old(State()).(directoryVersion := 1, grantVersion := 1,
                                              devices := old(devices)[newOwner := DeviceRecord(newOwner, OWNER_NAME, key, ACTIVE)]),
                                Installed(newOwner, key))
    {
      directoryVersion, grantVersion := 1, 1;
      devices := devices[newOwner := DeviceRecord(newOwner, OWNER_NAME, key, ACTIVE)];
      log := log + [Installed(newOwner, key)];
    }

    method InstallTables(newFabric: string, newOwner: string, key: Key)
      modifies this`fabric, this`owner, this`ownerKey, this`directoryVersion, this`grantVersion, this`devices, this`log
      ensures State() == InstallOwner(old(State()), newFabric, newOwner, key)
    {
      hide State, Named, Logged;
      Fields();
      NameOwner(newFabric, newOwner, key);
      RegisterOwner(newOwner, key);
    }

    method AddActivation(code: Code, userCode: Code, r: Authorization, now: int)
      modifies this`activations, this`userCodes, this`log
      ensures State() == Start(old(State()), code, userCode, r, now)
    {
      activations := activations[code := Activation(code, userCode, r.device, Trim(r.name), r.key, now + ACTIVATION_TTL, POLLING_INTERVAL, 0, PENDING)];
      userCodes := userCodes[userCode := code];
      log := log + [Began(code, userCode, r.device, r.key, now, now + ACTIVATION_TTL, r.signature)];
    }

    method RecordPoll(code: Code, now: int)
      requires code in activations
      modifies this`activations
      ensures State() == Polled(old(State()), code, now)
    {
      var pending := activations[code];
      if TooSoon(pending, now) {
        pending := pending.(interval := pending.interval + SLOW_DOWN_STEP);
      }
      activations := activations[code := pending.(lastPoll := now)];
    }

    method RegisterDevice(code: Code, now: int)
      requires code in activations
      modifies this`activations, this`userCodes, this`devices, this`directoryVersion, this`log
      ensures State() == Activate(old(State()), code, now)
    {
      var pending := activations[code];
      devices := devices[pending.device := DeviceRecord(pending.device, pending.name, pending.key, ACTIVE)];
      directoryVersion := directoryVersion + 1;
      DeleteActivation(code);
      log := log + [Activated(code, pending.device, pending.key, now)];
    }

    method StrikeDevice(device: string)
      requires device in devices
      modifies this`devices, this`bindings
      ensures State() == Struck(old(State()), device)
    {
      devices := devices[device := devices[device].(status := REVOKED)];
      RemoveShellBindings(device);
    }

    method RaiseVersions(device: string, signature: Signature<Message>)
      modifies this`directoryVersion, this`grantVersion, this`log
      ensures State() == Logged(old(State()).(directoryVersion := old(directoryVersion) + 1, grantVersion := old(grantVersion) + 1),
                                RevokedBy(device, signature))
    {
      directoryVersion := directoryVersion + 1;
      grantVersion := grantVersion + 1;
      log := log + [RevokedBy(device, signature)];
    }

    method RevokeTables(device: string, signature: Signature<Message>)
      requires device in devices
      modifies this`devices, this`bindings, this`directoryVersion, this`grantVersion, this`log
      ensures device in old(State()).devices && State() == Revoke(old(State()), device, signature)
    {
      hide State, Struck, Logged;
      Fields();
      StrikeDevice(device);
      RaiseVersions(device, signature);
    }

    method PublishBinding(binding: Binding)
      modifies this`bindings, this`directoryVersion, this`log
      ensures State() == Bind(old(State()), binding)
    {
      bindings := bindings[(binding.device, binding.capability) := binding];
      directoryVersion := directoryVersion + 1;
      log := log + [BindingChanged(binding.device, binding.capability)];
    }

    method EnsureBucket(device: string)
      modifies this`deviceIDs
      ensures State() == OpenBucket(old(State()), device)
    {
      if device !in deviceIDs {
        deviceIDs := deviceIDs[device := {}];
      }
    }

    lemma Fields()
      ensures State().fabric == fabric && State().owner == owner && State().ownerKey == ownerKey
      ensures State().directoryVersion == directoryVersion && State().grantVersion == grantVersion
      ensures State().activations == activations && State().userCodes == userCodes && State().devices == devices
      ensures State().ownerIDs == ownerIDs && State().deviceIDs == deviceIDs && State().bindings == bindings
      ensures State().window == window && State().attempts == attempts
    {
    }

    // ---- requests -----------------------------------------------------------------------

    /** Saves the tables and answers. */
    method Commit(status: Option<(string, bool)>, answer: Reply) returns (reply: Reply)
      requires store.Valid() && Durable(store.db, stored) && !failed && Inv(State())
      requires Saveable(State(), store.db, status) && status == Announced(answer)
      modifies this`failed, this`stored, store
      ensures Valid() && State() == old(State())
      ensures Executes(SaveAndAnswer(old(State()), answer), old(stored), State(), failed, stored, reply)
      ensures store.faults >= old(store.faults) && (store.faults == old(store.faults) ==> !failed)
      ensures Writes(old(store.db), old(stored), Announced(reply), store.db, stored)
    {
      hide Saves, State, Inv, Durable, InSync, RevokedIn;
      var saved := Persist(status);
      reply := if saved then answer else Fault(PersistenceFailed);
      OneSave(old(State()), answer, old(stored));
    }

    /** What every Owner-signed request goes through first. */
    method AcceptOwnerRequest(schema: string, version: ClientVersion, from: string, requestID: string, message: Message,
                              signature: Signature<Message>) returns (refused: Option<FaultCode>)
      modifies this`ownerIDs, this`ownerOrder, this`log
      ensures refused == OwnerRequestFault(old(State()), schema, version, from, requestID, message, signature)
      ensures State() == if refused.None? then AcceptOwnerID(old(State()), requestID) else old(State())
    {
      if fabric == "" {
        return Some(OwnerNotInitialized);
      }
      if VersionFault(schema, version).Some? {
        return VersionFault(schema, version);
      }
      refused := VerifyOwnerAction(from, requestID, message, signature);
    }

    method ApproveDevice(r: Approval, now: Clock, later: Clock) returns (reply: Reply)
      requires Valid()
      modifies this, store
      ensures Valid()
      ensures Outcome(old(failed), ApprovePlan(old(State()), r, now, later), old(State()), old(stored), State(), failed, stored, reply)
      ensures old(failed) ==> store.db == old(store.db)
      ensures store.faults >= old(store.faults) && (!old(failed) && store.faults == old(store.faults) ==> !failed)
      ensures Writes(old(store.db), old(stored), Announced(reply), store.db, stored)
    {
      hide Saves, State, Inv, Durable, InSync, RevokedIn, AcceptOwnerID, CheckRate, SettlePlan, OwnerRequestFault, Executes, Saveable, Keeps, After,
        Refuse, ApprovePlan, ApprovalOf;
      if failed {
        return Fault(PersistenceFailed);
      }
      ghost var c := State();
      ApprovePlanKeeps(c, r, now, later);
      ValidIsSaveable(store.db, stored, c);
      var refused := AcceptOwnerRequest(r.schema, r.version, r.owner, r.requestID, ApprovalOf(r), r.signature);
      if refused.Some? {
        ApproveRefused(c, r, now, later, stored);
        return Fault(refused.value);
      }
      var limited := CheckApprovalRateLimit(now);
      ghost var checked, before := State(), stored;
      ApproveStart(c, r, now, later, store.db);
      var saved := Persist(None);
      if !saved {
        FirstSaveFails(checked, SettlePlan(checked, r, now, later), before);
        return Fault(PersistenceFailed);
      }
      ghost var between := store.db;
      reply := Settle(r, now, later, limited);
      RestExecutes(checked, SettlePlan(checked, r, now, later), before, State(), failed, stored, reply);
      WritesOver(old(store.db), before, checked, between, Announced(reply), store.db, stored);
    }

    /** The rest of ApproveDevice, once the request is recorded and saved. */
    method Settle(r: Approval, now: Clock, later: Clock, limited: bool) returns (reply: Reply)
      requires Valid() && !failed && limited == (attempts >= MAX_CODE_ATTEMPTS) && Keeps(SettlePlan(State(), r, now, later))
      modifies this, store
      ensures Valid()
      ensures Executes(SettlePlan(old(State()), r, now, later), old(stored), State(), failed, stored, reply)
      ensures store.faults >= old(store.faults) && (store.faults == old(store.faults) ==> !failed)
      ensures Writes(old(store.db), old(stored), Announced(reply), store.db, stored)
    {
      hide Saves, State, Inv, Durable, InSync, RevokedIn, CountWrongCode, Drop, Approve, Saveable;
      Fields();
      ghost var c := State();
      ValidIsSaveable(store.db, stored, c);
      if limited {
        return Fault(UserCodeRateLimited);
      }
      if r.userCode !in userCodes {
        CountAttempt(now);
        Fields();
        SaveableStill(c, State(), store.db);
        reply := Commit(None, Fault(InvalidUserCode));
        return;
      }
      var code := userCodes[r.userCode];
      if code !in activations || later >= activations[code].expiresAt {
        DropActivation(code);
        Fields();
        SaveableStill(c, State(), store.db);
        reply := Commit(None, Fault(ActivationExpired));
        return;
      }
      if activations[code].status != PENDING {
        return Fault(ActivationNotPending);
      }
      var pending := activations[code];
      MarkApproved(code, r, later);
      Fields();
      SaveableStill(c, State(), store.db);
      reply := Commit(None, Approved(pending.device, pending.name));
    }

    method InitializeOwner(r: Initialization) returns (reply: Reply)
      requires Valid()
      modifies this, store
      ensures Valid()
      ensures Outcome(old(failed), InitializePlan(old(State()), r), old(State()), old(stored), State(), failed, stored, reply)
      ensures old(failed) ==> store.db == old(store.db)
      ensures store.faults >= old(store.faults) && (!old(failed) && store.faults == old(store.faults) ==> !failed)
      ensures Writes(old(store.db), old(stored), Announced(reply), store.db, stored)
    {
      hide Saves, State, Inv, Durable, InSync, RevokedIn, Executes, Saveable, Keeps, After, Refuse, SaveAndAnswer, InitializePlan, InstallOwner, InitializationFault;
      if failed {
        return Fault(PersistenceFailed);
      }
      ghost var c, before := State(), stored;
      Fields();
      var refused := InitializeChecks(r);
      if refused.Some? {
        InitializeRefused(c, r, stored);
        return Fault(refused.value);
      }
      InitializeStart(c, r, store.db, stored);
      InstallTables(r.fabric, r.owner, r.key);
      Fields();
      reply := Commit(Some((r.owner, false)), Initialized(r.fabric, r.owner, 1));
    }

    method InitializeChecks(r: Initialization) returns (refused: Option<FaultCode>)
      ensures refused == InitializationFault(State(), r)
    {
      if fabric != "" {
        return Some(OwnerAlreadyInitialized);
      }
      if VersionFault(r.schema, r.version).Some? {
        return VersionFault(r.schema, r.version);
      }
      if !ValidIdentifier(r.fabric, LONGEST_ENROLLMENT_IDENTIFIER) {
        return Some(InvalidFabricID);
      }
      if !ValidKey(r.key) {
        return Some(InvalidPublicKey);
      }
      if r.owner != DeviceID(r.key) {
        return Some(DeviceIdentityMismatch);
      }
      if !Verifies(r.key, InitializeMessage(r.fabric, r.owner, r.key, r.version), r.signature) {
        return Some(InvalidSignature);
      }
      refused := None;
    }

    method BeginDeviceAuthorization(r: Authorization, now: Clock, stamp: Clock, tokens: Option<(Code, Code)>) returns (reply: Reply)
      requires !failed ==> Fresh(State(), tokens)
      requires Valid()
      modifies this, store
      ensures Valid()
      ensures Outcome(old(failed), BeginPlan(old(State()), r, now, stamp, tokens), old(State()), old(stored), State(), failed, stored, reply)
      ensures old(failed) ==> store.db == old(store.db)
      ensures store.faults >= old(store.faults) && (!old(failed) && store.faults == old(store.faults) ==> !failed)
      ensures Writes(old(store.db), old(stored), Announced(reply), store.db, stored)
    {
      hide Saves, State, Inv, Durable, InSync, RevokedIn, Executes, Saveable, Keeps, After, Refuse, SaveAndAnswer, BeginPlan, AdmitPlan, AuthorizationFault, Prune, Prunes, Fresh;
      if failed {
        return Fault(PersistenceFailed);
      }
      ghost var c, before := State(), stored;
      BeginPlanKeeps(c, r, now, stamp, tokens);
      var refused := AuthorizationChecks(r);
      if refused.Some? {
        BeginRefused(c, r, now, stamp, tokens, stored);
        return Fault(refused.value);
      }
      BeginStart(c, r, now, stamp, tokens, store.db, stored);
      var pruned := PruneExpiredState(now);
      if pruned {
        ghost var kept := State();
        var saved := Persist(None);
        if !saved {
          FirstSaveFails(kept, AdmitPlan(kept, r, now, stamp, tokens), before);
          return Fault(PersistenceFailed);
        }
        ghost var between := store.db;
        reply := Admit(r, now, stamp, tokens);
        RestExecutes(kept, AdmitPlan(kept, r, now, stamp, tokens), before, State(), failed, stored, reply);
        WritesOver(old(store.db), before, kept, between, Announced(reply), store.db, stored);
      } else {
        PruneNothing(c, now);
        reply := Admit(r, now, stamp, tokens);
      }
    }

    method AuthorizationChecks(r: Authorization) returns (refused: Option<FaultCode>)
      ensures refused == AuthorizationFault(State(), r)
    {
      hide ValidRequestID, ValidDeviceName, ValidKey, DeviceID, Verifies, VersionFault;
      if fabric == "" {
        return Some(OwnerNotInitialized);
      }
      if VersionFault(r.schema, r.version).Some? {
        return VersionFault(r.schema, r.version);
      }
      if !ValidRequestID(r.requestID) {
        return Some(InvalidRequestID);
      }
      if !ValidDeviceName(r.name) {
        return Some(InvalidDeviceName);
      }
      if !ValidKey(r.key) {
        return Some(InvalidPublicKey);
      }
      if r.device != DeviceID(r.key) {
        return Some(DeviceIdentityMismatch);
      }
      if !Verifies(r.key, AuthorizeMessage(r.device, r.name, r.key, r.version, r.requestID), r.signature) {
        return Some(InvalidSignature);
      }
      if r.device in devices && devices[r.device].status == ACTIVE {
        return Some(DeviceAlreadyActive);
      }
      refused := None;
    }

    method CapacityChecks(r: Authorization) returns (refused: Option<FaultCode>)
      ensures refused == CapacityFault(State(), r)
    {
      if r.device in deviceIDs && r.requestID in deviceIDs[r.device] {
        return Some(RequestReplayed);
      }
      var pending := ActivationForDevice(r.device);
      if pending {
        return Some(ActivationAlreadyPending);
      }
      if |activations| >= MAX_PENDING_ACTIVATIONS {
        return Some(ActivationCapacityReached);
      }
      if r.device !in deviceIDs && |deviceIDs| >= MAX_DEVICE_REPLAY_BUCKETS {
        return Some(ActivationCapacityReached);
      }
      refused := None;
    }

    /** BeginDeviceAuthorization once expired state is gone. */
    method Admit(r: Authorization, now: Clock, stamp: Clock, tokens: Option<(Code, Code)>) returns (reply: Reply)
      requires Valid() && !failed && Keeps(AdmitPlan(State(), r, now, stamp, tokens))
      modifies this, store
      ensures Valid()
      ensures Executes(AdmitPlan(old(State()), r, now, stamp, tokens), old(stored), State(), failed, stored, reply)
      ensures store.faults >= old(store.faults) && (store.faults == old(store.faults) ==> !failed)
      ensures Writes(old(store.db), old(stored), Announced(reply), store.db, stored)
    {
      hide Saves, State, Inv, Durable, InSync, RevokedIn, Executes, Saveable, Keeps, After, Refuse, SaveAndAnswer, AdmitPlan, StartPlan, CapacityFault, AcceptDeviceID, Start;
      ghost var c, before := State(), stored;
      var refused := CapacityChecks(r);
      if refused.Some? {
        AdmitRefused(c, r, now, stamp, tokens, stored);
        return Fault(refused.value);
      }
      AdmitStart(c, r, now, stamp, tokens, store.db, stored);
      RecordDeviceRequestID(r.device, r.requestID, stamp);
      ghost var recorded := State();
      var saved := Persist(None);
      if !saved {
        FirstSaveFails(recorded, StartPlan(recorded, r, now, tokens), before);
        return Fault(PersistenceFailed);
      }
      ghost var between := store.db;
      if tokens.None? {
        StartRefused(recorded, r, now, stored);
        reply := Fault(EntropyUnavailable);
      } else {
        StartStart(recorded, r, now, tokens.value, store.db, stored);
        AddActivation(tokens.value.0, tokens.value.1, r, now);
        reply := Commit(None, Codes(tokens.value.0, tokens.value.1, ACTIVATION_TTL / SECOND, POLLING_INTERVAL / SECOND));
      }
      RestExecutes(recorded, StartPlan(recorded, r, now, tokens), before, State(), failed, stored, reply);
      WritesOver(old(store.db), before, recorded, between, Announced(reply), store.db, stored);
    }

    method PollDevice(r: Poll, now: Clock) returns (reply: Reply)
      requires Valid()
      modifies this, store
      ensures Valid()
      ensures Outcome(old(failed), PollPlan(old(State()), r, now), old(State()), old(stored), State(), failed, stored, reply)
      ensures old(failed) ==> store.db == old(store.db)
      ensures store.faults >= old(store.faults) && (!old(failed) && store.faults == old(store.faults) ==> !failed)
      ensures Writes(old(store.db), old(stored), Announced(reply), store.db, stored)
    {
      hide Saves, State, Inv, Durable, InSync, RevokedIn, Executes, Saveable, Keeps, After, Refuse, SaveAndAnswer, PollPlan, Drop, Polled, Activate, VersionFault;
      if failed {
        return Fault(PersistenceFailed);
      }
      ghost var c := State();
      Fields();
      if fabric == "" {
        PollRefused(c, r, now, stored);
        return Fault(OwnerNotInitialized);
      }
      if VersionFault(r.schema, r.version).Some? {
        PollRefused(c, r, now, stored);
        return Fault(VersionFault(r.schema, r.version).value);
      }
      if r.code !in activations {
        PollRefused(c, r, now, stored);
        return Fault(InvalidDeviceCode);
      }
      PollStart(c, r, now, store.db, stored);
      var pending := activations[r.code];
      if now >= pending.expiresAt {
        DropActivation(r.code);
        reply := Commit(None, Fault(ActivationExpired));
        return;
      }
      RecordPoll(r.code, now);
      if TooSoon(pending, now) {
        reply := Commit(None, Fault(SlowDown));
        return;
      }
      if pending.status == PENDING {
        reply := Commit(None, Fault(AuthorizationPending));
        return;
      }
      if pending.status != APPROVED {
        assert false; // an activation is either pending or approved
      }
      Fields();
      RegisterDevice(r.code, now);
      Fields();
      reply := Commit(Some((pending.device, false)), NowActive(fabric, pending.device, directoryVersion, grantVersion));
    }

    method RevokeDevice(r: Revocation) returns (reply: Reply)
      requires Valid()
      modifies this, store
      ensures Valid()
      ensures Outcome(old(failed), RevokePlan(old(State()), r), old(State()), old(stored), State(), failed, stored, reply)
      ensures old(failed) ==> store.db == old(store.db)
      ensures store.faults >= old(store.faults) && (!old(failed) && store.faults == old(store.faults) ==> !failed)
      ensures Writes(old(store.db), old(stored), Announced(reply), store.db, stored)
    {
      hide Saves, State, Inv, Durable, InSync, RevokedIn, Executes, Saveable, Keeps, After, Refuse, SaveAndAnswer, RevokePlan, RevokeRecorded, OwnerRequestFault, AcceptOwnerID, RevocationOf;
      if failed {
        return Fault(PersistenceFailed);
      }
      ghost var c, before := State(), stored;
      var refused := AcceptOwnerRequest(r.schema, r.version, r.owner, r.requestID, RevocationOf(r), r.signature);
      if refused.Some? {
        RevokeRefused(c, r, stored);
        return Fault(refused.value);
      }
      RevokeStart(c, r, store.db, stored);
      ghost var recorded := State();
      var saved := Persist(None);
      if !saved {
        FirstSaveFails(recorded, RevokeRecorded(recorded, r), before);
        return Fault(PersistenceFailed);
      }
      ghost var between := store.db;
      reply := RevokeAccepted(r);
      RestExecutes(recorded, RevokeRecorded(recorded, r), before, State(), failed, stored, reply);
      WritesOver(old(store.db), before, recorded, between, Announced(reply), store.db, stored);
    }

    /** The rest of RevokeDevice, once the request is recorded and saved. */
    method RevokeAccepted(r: Revocation) returns (reply: Reply)
      requires Valid() && !failed && Keeps(RevokeRecorded(State(), r))
      modifies this, store
      ensures Valid()
      ensures Executes(RevokeRecorded(old(State()), r), old(stored), State(), failed, stored, reply)
      ensures store.faults >= old(store.faults) && (store.faults == old(store.faults) ==> !failed)
      ensures Writes(old(store.db), old(stored), Announced(reply), store.db, stored)
    {
      hide Saves, State, Inv, Durable, InSync, RevokedIn, Executes, Saveable, Keeps, After, Refuse, SaveAndAnswer, RevokeRecorded, Revoke;
      ghost var c := State();
      Fields();
      if r.device == owner {
        RevocationRefused(c, r, stored);
        return Fault(OwnerDeviceRequiresRecovery);
      }
      if r.device !in devices {
        RevocationRefused(c, r, stored);
        return Fault(DeviceNotFound);
      }
      if devices[r.device].status == REVOKED {
        RevocationRefused(c, r, stored);
        return Fault(DeviceAlreadyRevoked);
      }
      RevocationStart(c, r, store.db, stored);
      RevokeTables(r.device, r.signature);
      Fields();
      reply := Commit(Some((r.device, true)), NowRevoked(r.device, directoryVersion, grantVersion));
    }

    method SyncVersion(r: Sync, stamp: Clock) returns (reply: Reply)
      requires Valid()
      modifies this, store
      ensures Valid()
      ensures Outcome(old(failed), SyncPlan(old(State()), r, stamp), old(State()), old(stored), State(), failed, stored, reply)
      ensures old(failed) ==> store.db == old(store.db)
      ensures store.faults >= old(store.faults) && (!old(failed) && store.faults == old(store.faults) ==> !failed)
      ensures Writes(old(store.db), old(stored), Announced(reply), store.db, stored)
    {
      hide Saves, State, Inv, Durable, InSync, RevokedIn, Executes, Saveable, Keeps, After, Refuse, SaveAndAnswer, SyncPlan, SyncFault, OpenBucket, AcceptDeviceID;
      if failed {
        return Fault(PersistenceFailed);
      }
      ghost var c := State();
      var refused := SyncChecks(r);
      if refused.Some? {
        SyncRefused(c, r, stamp, stored);
        return Fault(refused.value);
      }
      SyncStart(c, r, stamp, store.db, stored);
      Fields();
      EnsureBucket(r.device);
      Fields();
      if r.requestID in deviceIDs[r.device] {
        return Fault(RequestReplayed);
      }
      RecordDeviceRequestID(r.device, r.requestID, stamp);
      Fields();
      reply := Commit(None, Versions(fabric, r.device, devices[r.device].status, directoryVersion, grantVersion));
    }

    method SyncChecks(r: Sync) returns (refused: Option<FaultCode>)
      ensures refused == SyncFault(State(), r)
    {
      hide ValidRequestID, Verifies, VersionFault;
      if fabric == "" {
        return Some(OwnerNotInitialized);
      }
      if VersionFault(r.schema, r.version).Some? {
        return VersionFault(r.schema, r.version);
      }
      if !ValidRequestID(r.requestID) {
        return Some(InvalidRequestID);
      }
      if r.device !in devices {
        return Some(DeviceNotFound);
      }
      if !Verifies(devices[r.device].key, SyncMessage(r.device, r.requestID, r.version), r.signature) {
        return Some(InvalidSignature);
      }
      if devices[r.device].status == REVOKED {
        return Some(DeviceRevoked);
      }
      refused := None;
    }

    method PublishShellCapability(r: Publication, stamp: Clock) returns (reply: Reply)
      requires Valid()
      modifies this, store
      ensures Valid()
      ensures Outcome(old(failed), PublishPlan(old(State()), r, stamp), old(State()), old(stored), State(), failed, stored, reply)
      ensures old(failed) ==> store.db == old(store.db)
      ensures store.faults >= old(store.faults) && (!old(failed) && store.faults == old(store.faults) ==> !failed)
      ensures Writes(old(store.db), old(stored), Announced(reply), store.db, stored)
    {
      hide Saves, State, Inv, Durable, InSync, RevokedIn, Executes, Saveable, Keeps, After, Refuse, SaveAndAnswer, PublishPlan, PublicationFault, BindingFault, OpenBucket, FitPlan;
      if failed {
        return Fault(PersistenceFailed);
      }
      ghost var c := State();
      var refused := PublicationChecks(r);
      if refused.Some? {
        PublishRefused(c, r, stamp, stored);
        return Fault(refused.value);
      }
      PublishStart(c, r, stamp, store.db, stored);
      Fields();
      EnsureBucket(r.device);
      Fields();
      var unfit := BindingChecks(r);
      if unfit.Some? {
        return Fault(unfit.value);
      }
      reply := PublishFit(r, stamp);
    }

    /** The rest of PublishShellCapability for a binding that may be published. */
    method PublishFit(r: Publication, stamp: Clock) returns (reply: Reply)
      requires Valid() && !failed && Keeps(FitPlan(State(), r, stamp))
      modifies this, store
      ensures Valid()
      ensures Executes(FitPlan(old(State()), r, stamp), old(stored), State(), failed, stored, reply)
      ensures store.faults >= old(store.faults) && (store.faults == old(store.faults) ==> !failed)
      ensures Writes(old(store.db), old(stored), Announced(reply), store.db, stored)
    {
      hide Saves, State, Inv, Durable, InSync, RevokedIn, Executes, Saveable, Keeps, After, Refuse, SaveAndAnswer, FitPlan, AcceptDeviceID, Bind, Changes;
      FitStart(State(), r, stamp, store.db, stored);
      var changed := IsChange(r.binding);
      RecordPublication(r, stamp, changed);
      Fields();
      reply := Commit(None, Published(r.device, r.binding.capability, directoryVersion, changed));
    }

    method IsChange(binding: Binding) returns (changed: bool)
      ensures changed == Changes(State(), binding)
    {
      var key := (binding.device, binding.capability);
      changed := key !in bindings || binding.version > bindings[key].version;
    }

    method RecordPublication(r: Publication, stamp: int, changed: bool)
      modifies this`deviceIDs, this`deviceOrder, this`deviceSince, this`bindings, this`directoryVersion, this`log
      ensures var recorded := AcceptDeviceID(old(State()), r.device, r.requestID, stamp);
              State() == if changed then Bind(recorded, r.binding) else recorded
    {
      hide State, AcceptDeviceID, Bind;
      RecordDeviceRequestID(r.device, r.requestID, stamp);
      if changed {
        PublishBinding(r.binding);
      }
    }

    method PublicationChecks(r: Publication) returns (refused: Option<FaultCode>)
      ensures refused == PublicationFault(State(), r)
    {
      hide ValidRequestID, Verifies, VersionFault;
      if fabric == "" {
        return Some(OwnerNotInitialized);
      }
      if VersionFault(r.schema, r.version).Some? {
        return VersionFault(r.schema, r.version);
      }
      if !ValidRequestID(r.requestID) {
        return Some(InvalidRequestID);
      }
      if r.device !in devices {
        return Some(DeviceNotFound);
      }
      if devices[r.device].status != ACTIVE {
        return Some(DeviceRevoked);
      }
      if !Verifies(devices[r.device].key, PublishMessage(r.device, r.binding.signature, r.requestID, r.version), r.signature) {
        return Some(InvalidSignature);
      }
      refused := None;
    }

    method BindingChecks(r: Publication) returns (unfit: Option<FaultCode>)
      requires r.device in devices && r.device in deviceIDs
      ensures r.device in State().devices && unfit == BindingFault(State(), r)
    {
      hide ShellBinding.Verify, ValidIdentifier;
      var binding, key := r.binding, (r.binding.device, r.binding.capability);
      if r.requestID in deviceIDs[r.device] {
        return Some(RequestReplayed);
      }
      if binding.device != r.device || binding.fabric != fabric || !ValidIdentifier(binding.capability, LONGEST_ENROLLMENT_IDENTIFIER) {
        return Some(CapabilityIdentityMismatch);
      }
      var verified := ShellBinding.VerifyBinding(r.device, devices[r.device].key, binding.capability, fabric, binding);
      if !verified {
        return Some(InvalidCapabilityBinding);
      }
      if key in bindings && binding.version < bindings[key].version {
        return Some(CapabilityBindingStale);
      }
      if key in bindings && binding.version == bindings[key].version && binding.signature != bindings[key].signature {
        return Some(CapabilityBindingConflict);
      }
      if key !in bindings || binding.version > bindings[key].version {
        if key !in bindings && |bindings| >= MAX_PUBLISHED_BINDINGS {
          return Some(CapabilityCapacityReached);
        }
        if directoryVersion == MAX_UINT64 {
          return Some(DirectoryVersionExhausted);
        }
      }
      unfit := None;
    }

    method ListShellCapabilities(r: Listing) returns (reply: Reply, claims: seq<Claim>)
      requires Valid()
      modifies this, store
      ensures Valid()
      ensures Outcome(old(failed), ListPlan(old(State()), r), old(State()), old(stored), State(), failed, stored, reply)
      ensures old(failed) ==> store.db == old(store.db)
      ensures store.faults >= old(store.faults) && (!old(failed) && store.faults == old(store.faults) ==> !failed)
      ensures Writes(old(store.db), old(stored), Announced(reply), store.db, stored)
      ensures reply.Listed? ==> IsClaimList(old(State()), claims)
    {
      hide Saves, State, Inv, Durable, InSync, RevokedIn, Executes, Saveable, Keeps, After, Refuse, SaveAndAnswer, ListPlan, OwnerRequestFault, AcceptOwnerID, IsClaimList, ListingOf;
      claims := [];
      if failed {
        return Fault(PersistenceFailed), claims;
      }
      ghost var c := State();
      var refused := AcceptOwnerRequest(r.schema, r.version, r.owner, r.requestID, ListingOf(r), r.signature);
      if refused.Some? {
        ListRefused(c, r, stored);
        return Fault(refused.value), claims;
      }
      ListStart(c, r, store.db, stored);
      Fields();
      claims := ActiveClaims(State(), devices, bindings);
      reply := Commit(None, Listed(fabric, directoryVersion));
      SameClaims(c, r.requestID, claims);
    }

    // ---- restart ---------------------------------------------------------------------------

    /** Fills a fresh Manager from a saved state, or refuses it. */
    method Restore(p: Persisted, stamps: Readings, ghost history: seq<Event>) returns (ok: bool)
      requires State() == Empty() && !failed
      modifies this
      ensures ok <==> Acceptable(p)
      ensures ok ==> State() == Rebuilt(p, stamps, history)
      ensures failed == old(failed) && stored == old(stored)
    {
      hide State, Acceptable, Collected, UserCodesOf, Filled, Elems, BucketSets, StampsOf;
      var tables, readable := RestoreTables(p, stamps);
      if !readable {
        return false;
      }
      NameOwner(p.fabric, p.owner, p.ownerKey);
      SetVersions(p);
      SetRegistry(p, tables.devices, tables.bindings);
      SetRequests(tables.activations, tables.userCodes, tables.ownerIDs, p.ownerIDs);
      SetBuckets(tables.deviceIDs, tables.deviceOrder, tables.deviceSince, history);
      ok := true;
    }

    method SetVersions(p: Persisted)
      modifies this`directoryVersion, this`grantVersion
      ensures State() == old(State()).(directoryVersion := p.directoryVersion, grantVersion := p.grantVersion)
    {
      directoryVersion, grantVersion := p.directoryVersion, p.grantVersion;
    }

    method SetRegistry(p: Persisted, newDevices: map<string, DeviceRecord>, newBindings: map<(string, string), Binding>)
      modifies this`window, this`attempts, this`devices, this`bindings
      ensures State() == old(State()).(window := p.window, attempts := p.attempts, devices := newDevices, bindings := newBindings)
    {
      window, attempts, devices, bindings := p.window, p.attempts, newDevices, newBindings;
    }

    method SetRequests(newActivations: map<Code, Activation>, newUserCodes: map<Code, Code>, ids: set<string>, order: seq<string>)
      modifies this`activations, this`userCodes, this`ownerIDs, this`ownerOrder
      ensures State() == old(State()).(activations := newActivations, userCodes := newUserCodes, ownerIDs := ids, ownerOrder := order)
    {
      activations, userCodes, ownerIDs, ownerOrder := newActivations, newUserCodes, ids, order;
    }

    method SetBuckets(ids: map<string, set<string>>, order: map<string, seq<string>>, since: map<string, int>, ghost history: seq<Event>)
      modifies this`deviceIDs, this`deviceOrder, this`deviceSince, this`log
      ensures State() == old(State()).(deviceIDs := ids, deviceOrder := order, deviceSince := since, log := history)
    {
      deviceIDs, deviceOrder, deviceSince := ids, order, since;
      log := history;
    }

    /** NewPersistentManager: `was` are the tables last saved. Without a fault it starts
        exactly when the saved state has at most 4096 buckets. */
    static method Open(store: Store, stamps: Readings, later: Clock, ghost was: Option<Core>) returns (m: Manager?, ok: bool)
      requires store.Valid() && Durable(store.db, was)
      modifies store
      ensures ok ==> m != null && fresh(m) && m.store == store && m.Valid() && !m.failed
      ensures ok ==> m.State() == StateAfterOpen(was, stamps, later) && (m.stored == was || m.stored == Some(m.State()))
      ensures !ok ==> store.Valid() && store.db == old(store.db)
      ensures store.faults == old(store.faults) ==> (ok <==> was.None? || |was.value.deviceOrder| <= MAX_DEVICE_REPLAY_BUCKETS)
      ensures ok ==> Writes(old(store.db), was, None, store.db, m.stored)
    {
      hide Saves, Inv, Acceptable, Rebuilt, Reopened, Prune, Prunes, IsSnapshot, Durable, InSync, Saveable, RevokedIn;
      var payload, loaded := store.LoadControlState();
      if !loaded {
        return null, false;
      }
      OpenedControl(store.db, was, stamps);
      var manager := new Manager(store);
      if payload.None? {
        return manager, true;
      }
      var restored := manager.Restore(payload.value, stamps, was.value.log);
      if !restored {
        return null, false;
      }
      manager.Adopt(was);
      manager.Fields();
      var pruned := manager.PruneExpiredState(later);
      OpenedPruned(store.db, was.value, stamps, later);
      if pruned {
        var saved := manager.Persist(None);
        if !saved {
          return null, false;
        }
      }
      return manager, true;
    }

    /** What is stored is known from the restart on. */
    ghost method Adopt(was: Option<Core>)
      modifies this`stored
      ensures stored == was
    {
      stored := was;
    }
  }

  lemma NamesMatch(c: Core)
    requires Tables(c)
    ensures forall k | k in c.activations :: CodeOf(c.activations[k]) == k
    ensures forall k | k in c.devices :: IDOf(c.devices[k]) == k
    ensures forall k | k in c.bindings :: SubjectOf(c.bindings[k]) == k
  {
    hide ShellBinding.Verify, ValidKey;
    forall k | k in c.activations
      ensures CodeOf(c.activations[k]) == k
    {
      assert ActivationOK(c.activations[k], k);
    }
    forall k | k in c.devices
      ensures IDOf(c.devices[k]) == k
    {
      assert DeviceOK(c.devices[k], k);
    }
    forall k | k in c.bindings
      ensures SubjectOf(c.bindings[k]) == k
    {
      assert BindingOK(c, k);
    }
  }

  lemma InvTables(c: Core)
    requires Inv(c)
    ensures Tables(c)
  {
  }

  lemma StatusIsSaveable(c: Core, device: string)
    requires Inv(c) && c.fabric != "" && device in c.devices
    ensures ValidIdentifier(device, LONGEST_IDENTIFIER) && c.directoryVersion != 0 && c.grantVersion != 0
  {
    hide Lawful;
    assert DeviceOK(c.devices[device], device);
    DeviceIDsAreIdentifiers(c.devices[device].key);
  }

  lemma SyncedWithItself(c: Core)
    ensures InSync(Some(c), c)
  {
  }

  ghost predicate Without<V>(before: map<string, V>, after: map<string, V>, gone: set<string>) {
    && (forall d :: d in after <==> d in before && d !in gone)
    && (forall d | d in after :: after[d] == before[d])
  }

  predicate StaleAt(since: map<string, int>, devices: map<string, DeviceRecord>, activations: map<Code, Activation>, d: string, now: int)
    requires d in since
  {
    d !in devices && (forall code | code in activations :: activations[code].device != d) && now - since[d] >= DEVICE_REPLAY_RETENTION
  }

  /** The user codes of the expired activations outside `remaining`. */
  predicate ExpiredUsers(activations: map<Code, Activation>, remaining: set<Code>, now: int, users: set<Code>) {
    && (forall code | code in activations && code !in remaining && now >= activations[code].expiresAt :: activations[code].userCode in users)
    && (forall u | u in users :: exists code | code in activations && code !in remaining ::
          now >= activations[code].expiresAt && activations[code].userCode == u)
  }

  lemma IsMinus<V>(before: map<string, V>, after: map<string, V>, gone: set<string>)
    requires Without(before, after, gone)
    ensures after == before - gone
    ensures gone == {} ==> after == before
  {
  }

  lemma ExpiredUsersAre(c: Core, now: int, users: set<Code>)
    requires ExpiredUsers(c.activations, {}, now, users)
    ensures users == ExpiredUserCodes(c, now)
  {
  }

  lemma SomeExpired(c: Core, now: int)
    ensures Expired(c, now) != {} <==> exists code | code in c.activations :: now >= c.activations[code].expiresAt
  {
    if code :| code in c.activations && now >= c.activations[code].expiresAt {
      assert code in Expired(c, now);
    }
  }

  lemma PrunedActivations(c: Core, d: Core, now: int, users: set<Code>)
    requires forall code :: code in d.activations <==> code in c.activations && now < c.activations[code].expiresAt
    requires forall code | code in d.activations :: d.activations[code] == c.activations[code]
    requires ExpiredUsers(c.activations, {}, now, users) && Without(c.userCodes, d.userCodes, users)
    ensures d.activations == DropExpired(c, now).activations && d.userCodes == DropExpired(c, now).userCodes
  {
    hide ExpiredUsers, ExpiredUserCodes;
    ExpiredUsersAre(c, now, users);
    IsMinus(c.userCodes, d.userCodes, users);
    IsMinus(c.activations, d.activations, Expired(c, now));
  }

  lemma PrunedBuckets(c: Core, d: Core, gone: set<string>, now: int)
    requires forall x :: x in gone <==> x in c.deviceSince && StaleAt(c.deviceSince, c.devices, c.activations, x, now)
    requires Without(c.deviceIDs, d.deviceIDs, gone) && Without(c.deviceOrder, d.deviceOrder, gone) && Without(c.deviceSince, d.deviceSince, gone)
    ensures gone == StaleBuckets(c, now)
    ensures d.deviceIDs == DropBuckets(c, gone).deviceIDs && d.deviceOrder == DropBuckets(c, gone).deviceOrder
            && d.deviceSince == DropBuckets(c, gone).deviceSince
  {
    IsMinus(c.deviceIDs, d.deviceIDs, gone);
    IsMinus(c.deviceOrder, d.deviceOrder, gone);
    IsMinus(c.deviceSince, d.deviceSince, gone);
  }

  lemma SavedPlain(db: Database, payload: Persisted, c: Core)
    requires Inv(c) && IsSnapshot(payload, c) && Saveable(c, db, None)
    ensures Durable(db.(control := Some(payload)), Some(c)) && Saves(db, c, None, db.(control := Some(payload)))
  {
    hide Inv, IsSnapshot, RevokedIn;
    assert Saved(db, payload, c, None) == db.(control := Some(payload));
  }

  lemma SavedStatus(db: Database, payload: Persisted, c: Core, update: (string, bool))
    requires Inv(c) && IsSnapshot(payload, c) && Saveable(c, db, Some(update))
    ensures Durable(SnapshotStore.WithStatus(db, payload, update.0, update.1, c.directoryVersion, c.grantVersion), Some(c))
    ensures Saves(db, c, Some(update), SnapshotStore.WithStatus(db, payload, update.0, update.1, c.directoryVersion, c.grantVersion))
    ensures update.0 in c.devices && c.fabric != ""
  {
    hide Inv, IsSnapshot, RevokedIn;
    assert Saved(db, payload, c, Some(update)) == SnapshotStore.WithStatus(db, payload, update.0, update.1, c.directoryVersion, c.grantVersion);
  }

  /** The overlay the store holds already, or will hold with this status, is the one of the tables. */
  ghost predicate Saveable(c: Core, db: Database, status: Option<(string, bool)>) {
    match status
    case None => db.revocations.Keys == RevokedIn(c)
    case Some(update) =>
      update.0 in c.devices && c.fabric != "" && RevokedIn(c) == NowRevokedKeys(db.revocations.Keys, update)
  }

  lemma ValidIsSaveable(db: Database, stored: Option<Core>, c: Core)
    requires Durable(db, stored) && InSync(stored, c)
    ensures Saveable(c, db, None)
  {
  }

  lemma SaveableStill(c: Core, d: Core, db: Database)
    requires Saveable(c, db, None) && d.devices == c.devices
    ensures Saveable(d, db, None)
  {
  }

  lemma OneSave(c: Core, answer: Reply, before: Option<Core>)
    ensures Executes(SaveAndAnswer(c, answer), before, c, false, Some(c), answer)
    ensures Executes(SaveAndAnswer(c, answer), before, c, true, before, Fault(PersistenceFailed))
  {
    assert SaveAndAnswer(c, answer).saves[0] == c;
  }

  lemma FirstSaveFails(c: Core, rest: Plan, before: Option<Core>)
    ensures Executes(After(c, rest), before, c, true, before, Fault(PersistenceFailed))
  {
    assert After(c, rest).saves[0] == c;
  }

  /** Once its first save has succeeded, a plan is carried out like its rest. */
  lemma RestExecutes(c: Core, rest: Plan, before: Option<Core>, d: Core, failed: bool, stored: Option<Core>, reply: Reply)
    requires Executes(rest, Some(c), d, failed, stored, reply)
    ensures Executes(After(c, rest), before, d, failed, stored, reply)
  {
    var plan := After(c, rest);
    if failed {
      var k :| 0 <= k < |rest.saves| && d == rest.saves[k] && stored == SavedUpTo(rest, Some(c), k);
      assert plan.saves[k + 1] == d && stored == SavedUpTo(plan, before, k + 1);
    }
  }

  lemma ApproveStart(c: Core, r: Approval, now: int, later: int, db: Database)
    requires OwnerRequestFault(c, r.schema, r.version, r.owner, r.requestID, ApprovalOf(r), r.signature).None?
    requires Keeps(ApprovePlan(c, r, now, later)) && Saveable(c, db, None)
    ensures var checked := CheckRate(AcceptOwnerID(c, r.requestID), now);
            Inv(checked) && Saveable(checked, db, None) && Keeps(SettlePlan(checked, r, now, later))
            && ApprovePlan(c, r, now, later) == After(checked, SettlePlan(checked, r, now, later))
  {
    hide Inv, AcceptOwnerID, CheckRate, SettlePlan, OwnerRequestFault, Saveable;
    AcceptFrame(c, r.requestID, now);
    var checked := CheckRate(AcceptOwnerID(c, r.requestID), now);
    SaveableStill(c, checked, db);
    KeptParts(checked, SettlePlan(checked, r, now, later));
  }

  lemma ApproveRefused(c: Core, r: Approval, now: int, later: int, stored: Option<Core>)
    ensures var refused := OwnerRequestFault(c, r.schema, r.version, r.owner, r.requestID, ApprovalOf(r), r.signature);
            refused.Some? ==> Executes(ApprovePlan(c, r, now, later), stored, c, false, stored, Fault(refused.value))
  {
    hide OwnerRequestFault;
  }

  lemma KeptParts(c: Core, rest: Plan)
    requires Keeps(After(c, rest))
    ensures Inv(c) && Keeps(rest)
  {
    hide Inv;
    var plan := After(c, rest);
    assert plan.saves[0] == c;
    forall k | 0 <= k < |rest.saves|
      ensures Inv(rest.saves[k])
    {
      assert plan.saves[k + 1] == rest.saves[k];
    }
  }

  lemma SyncedSaveable(c: Core, d: Core, db: Database, stored: Option<Core>)
    requires Durable(db, stored) && InSync(stored, c) && d.devices == c.devices
    ensures Saveable(d, db, None)
  {
    ValidIsSaveable(db, stored, c);
    SaveableStill(c, d, db);
  }

  lemma KeptOne(c: Core, answer: Reply)
    requires Keeps(SaveAndAnswer(c, answer))
    ensures Inv(c)
  {
  }

  lemma InitializeRefused(c: Core, r: Initialization, stored: Option<Core>)
    ensures InitializationFault(c, r).Some? ==>
              Executes(InitializePlan(c, r), stored, c, false, stored, Fault(InitializationFault(c, r).value))
  {
    hide InitializationFault;
  }

  lemma InitializeStart(c: Core, r: Initialization, db: Database, stored: Option<Core>)
    requires InitializationFault(c, r).None? && Inv(c) && Durable(db, stored) && InSync(stored, c)
    ensures var d := InstallOwner(c, r.fabric, r.owner, r.key);
            Inv(d) && Saveable(d, db, Some((r.owner, false))) && InitializePlan(c, r) == SaveAndAnswer(d, Initialized(r.fabric, r.owner, 1))
  {
    hide Inv, InitializationFault, Durable, InSync, Keeps;
    InitializePlanKeeps(c, r);
    var d := InstallOwner(c, r.fabric, r.owner, r.key);
    KeptOne(d, Initialized(r.fabric, r.owner, 1));
    Installable(c, r);
    UninitializedIsEmpty(c);
    ValidIsSaveable(db, stored, c);
    NamedFabric(r.fabric);
  }

  lemma NamedFabric(fabric: string)
    requires ValidIdentifier(fabric, LONGEST_ENROLLMENT_IDENTIFIER)
    ensures fabric != ""
  {
  }

  lemma BeginRefused(c: Core, r: Authorization, now: int, stamp: int, tokens: Option<(Code, Code)>, stored: Option<Core>)
    ensures AuthorizationFault(c, r).Some? ==>
              Executes(BeginPlan(c, r, now, stamp, tokens), stored, c, false, stored, Fault(AuthorizationFault(c, r).value))
  {
    hide AuthorizationFault;
  }

  lemma BeginStart(c: Core, r: Authorization, now: int, stamp: int, tokens: Option<(Code, Code)>, db: Database, stored: Option<Core>)
    requires AuthorizationFault(c, r).None? && Keeps(BeginPlan(c, r, now, stamp, tokens)) && Durable(db, stored) && InSync(stored, c)
    ensures var pruned := Prune(c, now);
            if Prunes(c, now) then
              && Inv(pruned) && Saveable(pruned, db, None) && Keeps(AdmitPlan(pruned, r, now, stamp, tokens))
              && BeginPlan(c, r, now, stamp, tokens) == After(pruned, AdmitPlan(pruned, r, now, stamp, tokens))
            else
              Keeps(AdmitPlan(c, r, now, stamp, tokens)) && BeginPlan(c, r, now, stamp, tokens) == AdmitPlan(c, r, now, stamp, tokens)
  {
    hide Inv, AuthorizationFault, Durable, InSync, Saveable, Keeps, Prune, Prunes, AdmitPlan;
    if Prunes(c, now) {
      PruneFrame(c, now);
      SyncedSaveable(c, Prune(c, now), db, stored);
      KeptParts(Prune(c, now), AdmitPlan(Prune(c, now), r, now, stamp, tokens));
    }
  }

  lemma PruneNothing(c: Core, now: int)
    ensures !Prunes(c, now) ==> Prune(c, now) == c
  {
    if !Prunes(c, now) {
      assert Expired(c, now) == {} && StaleBuckets(DropExpired(c, now), now) == {};
      assert ExpiredUserCodes(c, now) == {} by {
        assert forall code | code in c.activations :: code !in Expired(c, now);
      }
      assert DropExpired(c, now) == c;
    }
  }

  lemma AdmitRefused(c: Core, r: Authorization, now: int, stamp: int, tokens: Option<(Code, Code)>, stored: Option<Core>)
    ensures CapacityFault(c, r).Some? ==>
              Executes(AdmitPlan(c, r, now, stamp, tokens), stored, c, false, stored, Fault(CapacityFault(c, r).value))
  {
    hide CapacityFault;
  }

  lemma AdmitStart(c: Core, r: Authorization, now: int, stamp: int, tokens: Option<(Code, Code)>, db: Database, stored: Option<Core>)
    requires CapacityFault(c, r).None? && Keeps(AdmitPlan(c, r, now, stamp, tokens)) && Durable(db, stored) && InSync(stored, c)
    ensures var recorded := AcceptDeviceID(c, r.device, r.requestID, stamp);
            && Inv(recorded) && Saveable(recorded, db, None) && Keeps(StartPlan(recorded, r, now, tokens))
            && AdmitPlan(c, r, now, stamp, tokens) == After(recorded, StartPlan(recorded, r, now, tokens))
  {
    hide Inv, CapacityFault, Durable, InSync, Saveable, Keeps, StartPlan, Stamped, Enqueued;
    var recorded := AcceptDeviceID(c, r.device, r.requestID, stamp);
    AcceptedDevices(c, r.device, r.requestID, stamp);
    SyncedSaveable(c, recorded, db, stored);
    KeptParts(recorded, StartPlan(recorded, r, now, tokens));
  }

  lemma AcceptedDevices(c: Core, device: string, id: string, stamp: int)
    ensures var d := AcceptDeviceID(c, device, id, stamp);
            d.devices == c.devices && d.fabric == c.fabric && d.directoryVersion == c.directoryVersion && d.grantVersion == c.grantVersion
            && d.bindings == c.bindings
  {
  }

  lemma StartRefused(c: Core, r: Authorization, now: int, stored: Option<Core>)
    ensures Executes(StartPlan(c, r, now, None), stored, c, false, stored, Fault(EntropyUnavailable))
  {
  }

  lemma StartStart(c: Core, r: Authorization, now: int, tokens: (Code, Code), db: Database, stored: Option<Core>)
    requires Keeps(StartPlan(c, r, now, Some(tokens))) && Durable(db, stored) && InSync(stored, c)
    ensures var d := Start(c, tokens.0, tokens.1, r, now);
            Inv(d) && Saveable(d, db, None)
            && StartPlan(c, r, now, Some(tokens))
               == SaveAndAnswer(d, Codes(tokens.0, tokens.1, ACTIVATION_TTL / SECOND, POLLING_INTERVAL / SECOND))
  {
    hide Inv, Durable, InSync, Saveable, Keeps, Trim;
    var d := Start(c, tokens.0, tokens.1, r, now);
    SyncedSaveable(c, d, db, stored);
    KeptOne(d, Codes(tokens.0, tokens.1, ACTIVATION_TTL / SECOND, POLLING_INTERVAL / SECOND));
  }

  lemma PollRefused(c: Core, r: Poll, now: int, stored: Option<Core>)
    ensures PollFault(c, r).Some? ==> Executes(PollPlan(c, r, now), stored, c, false, stored, Fault(PollFault(c, r).value))
  {
    hide PollFault;
  }

  /** The four ways a poll of a known code goes on. */
  lemma PollStart(c: Core, r: Poll, now: int, db: Database, stored: Option<Core>)
    requires PollFault(c, r).None? && Inv(c) && Durable(db, stored) && InSync(stored, c)
    ensures var a := c.activations[r.code];
            a.status in {PENDING, APPROVED} && r.code in Polled(c, r.code, now).activations
    ensures var a := c.activations[r.code];
            now >= a.expiresAt ==>
              Inv(Drop(c, r.code)) && Saveable(Drop(c, r.code), db, None)
              && PollPlan(c, r, now) == SaveAndAnswer(Drop(c, r.code), Fault(ActivationExpired))
    ensures var a := c.activations[r.code];
            now < a.expiresAt && (TooSoon(a, now) || a.status == PENDING) ==>
              Inv(Polled(c, r.code, now)) && Saveable(Polled(c, r.code, now), db, None)
              && PollPlan(c, r, now) == SaveAndAnswer(Polled(c, r.code, now), Fault(if TooSoon(a, now) then SlowDown else AuthorizationPending))
    ensures var a := c.activations[r.code];
            now < a.expiresAt && !TooSoon(a, now) && a.status == APPROVED ==>
              var d := Activate(Polled(c, r.code, now), r.code, now);
              Inv(d) && Saveable(d, db, Some((a.device, false)))
              && PollPlan(c, r, now) == SaveAndAnswer(d, NowActive(d.fabric, a.device, d.directoryVersion, d.grantVersion))
  {
    hide Inv, Durable, InSync, Saveable, Keeps, Drop, Polled, Activate, VersionFault;
    PollPlanKeeps(c, r, now);
    var a := c.activations[r.code];
    StatusKnown(c, r.code);
    PolledFrame(c, r.code, now);
    if now >= a.expiresAt {
      DropDevices(c, r.code);
      SyncedSaveable(c, Drop(c, r.code), db, stored);
      KeptOne(Drop(c, r.code), Fault(ActivationExpired));
    } else if TooSoon(a, now) || a.status == PENDING {
      PolledDevices(c, r.code, now);
      SyncedSaveable(c, Polled(c, r.code, now), db, stored);
      KeptOne(Polled(c, r.code, now), PollPlan(c, r, now).reply);
    } else {
      var d := Activate(Polled(c, r.code, now), r.code, now);
      KeptOne(d, PollPlan(c, r, now).reply);
      ActivatedSaveable(c, r.code, now, db, stored);
    }
  }

  lemma StatusKnown(c: Core, code: Code)
    requires Inv(c) && code in c.activations
    ensures c.activations[code].status in {PENDING, APPROVED} && c.fabric != ""
  {
    assert ActivationOK(c.activations[code], code);
  }

  lemma DropDevices(c: Core, code: Code)
    ensures Drop(c, code).devices == c.devices
  {
  }

  lemma PolledDevices(c: Core, code: Code, now: int)
    requires code in c.activations
    ensures Polled(c, code, now).devices == c.devices
  {
  }

  lemma ActivatedSaveable(c: Core, code: Code, now: int, db: Database, stored: Option<Core>)
    requires code in c.activations && Durable(db, stored) && InSync(stored, c) && c.fabric != ""
    ensures var d := Activate(Polled(c, code, now), code, now);
            Saveable(d, db, Some((c.activations[code].device, false))) && d.fabric == c.fabric
            && d.directoryVersion == c.directoryVersion + 1 && d.grantVersion == c.grantVersion
  {
    hide Inv, IsSnapshot;
    ValidIsSaveable(db, stored, c);
    var a, d := c.activations[code], Activate(Polled(c, code, now), code, now);
    assert d.devices == c.devices[a.device := DeviceRecord(a.device, a.name, a.key, ACTIVE)];
    assert RevokedIn(d) == RevokedIn(c) - {a.device};
  }

  lemma RevokeRefused(c: Core, r: Revocation, stored: Option<Core>)
    ensures var refused := OwnerRequestFault(c, r.schema, r.version, r.owner, r.requestID, RevocationOf(r), r.signature);
            refused.Some? ==> Executes(RevokePlan(c, r), stored, c, false, stored, Fault(refused.value))
  {
    hide OwnerRequestFault;
  }

  lemma RevokeStart(c: Core, r: Revocation, db: Database, stored: Option<Core>)
    requires OwnerRequestFault(c, r.schema, r.version, r.owner, r.requestID, RevocationOf(r), r.signature).None?
    requires Inv(c) && Durable(db, stored) && InSync(stored, c)
    ensures var recorded := AcceptOwnerID(c, r.requestID);
            && Inv(recorded) && Saveable(recorded, db, None) && Keeps(RevokeRecorded(recorded, r))
            && RevokePlan(c, r) == After(recorded, RevokeRecorded(recorded, r))
  {
    hide Inv, AcceptOwnerID, OwnerRequestFault, Durable, InSync, Saveable, Keeps, RevokeRecorded;
    RevokePlanKeeps(c, r);
    AcceptFrame(c, r.requestID, 1);
    var recorded := AcceptOwnerID(c, r.requestID);
    SyncedSaveable(c, recorded, db, stored);
    KeptParts(recorded, RevokeRecorded(recorded, r));
  }

  lemma RevocationRefused(c: Core, r: Revocation, stored: Option<Core>)
    ensures r.device == c.owner ==> Executes(RevokeRecorded(c, r), stored, c, false, stored, Fault(OwnerDeviceRequiresRecovery))
    ensures r.device != c.owner && r.device !in c.devices ==> Executes(RevokeRecorded(c, r), stored, c, false, stored, Fault(DeviceNotFound))
    ensures r.device != c.owner && r.device in c.devices && c.devices[r.device].status == REVOKED ==>
              Executes(RevokeRecorded(c, r), stored, c, false, stored, Fault(DeviceAlreadyRevoked))
  {
  }

  lemma RevocationStart(c: Core, r: Revocation, db: Database, stored: Option<Core>)
    requires r.device != c.owner && r.device in c.devices && c.devices[r.device].status != REVOKED && Inv(c)
    requires Keeps(RevokeRecorded(c, r)) && Durable(db, stored) && InSync(stored, c)
    ensures var d := Revoke(c, r.device, r.signature);
            && Inv(d) && Saveable(d, db, Some((r.device, true)))
            && RevokeRecorded(c, r) == SaveAndAnswer(d, NowRevoked(r.device, d.directoryVersion, d.grantVersion))
  {
    hide Inv, Durable, InSync, Keeps, Revoke, RevokedIn;
    var d := Revoke(c, r.device, r.signature);
    RevokedFields(c, r.device, r.signature);
    KeptOne(d, NowRevoked(r.device, d.directoryVersion, d.grantVersion));
    ValidIsSaveable(db, stored, c);
    HasFabric(c, r.device);
  }

  lemma RevokedFields(c: Core, device: string, signature: Signature<Message>)
    requires device in c.devices
    ensures var d := Revoke(c, device, signature);
            d.directoryVersion == c.directoryVersion + 1 && d.grantVersion == c.grantVersion + 1 && d.fabric == c.fabric
            && device in d.devices && RevokedIn(d) == RevokedIn(c) + {device}
  {
  }

  lemma HasFabric(c: Core, device: string)
    requires Inv(c) && device in c.devices
    ensures c.fabric != ""
  {
  }

  lemma SyncRefused(c: Core, r: Sync, stamp: int, stored: Option<Core>)
    ensures SyncFault(c, r).Some? ==> Executes(SyncPlan(c, r, stamp), stored, c, false, stored, Fault(SyncFault(c, r).value))
  {
    hide SyncFault;
  }

  /** Opening a bucket changes nothing that is saved. */
  lemma BucketReady(c: Core, device: string, stored: Option<Core>)
    requires Inv(c) && c.fabric != "" && InSync(stored, c)
    ensures var ready := OpenBucket(c, device);
            Inv(ready) && InSync(stored, ready) && device in ready.deviceIDs && Bucket(ready, device) == ready.deviceIDs[device]
  {
    hide Inv;
    OpenBucketKeeps(c, device);
  }

  lemma SyncStart(c: Core, r: Sync, stamp: int, db: Database, stored: Option<Core>)
    requires SyncFault(c, r).None? && Inv(c) && Durable(db, stored) && InSync(stored, c)
    ensures r.device in c.devices
    ensures var ready := OpenBucket(c, r.device);
            && Inv(ready) && InSync(stored, ready) && r.device in ready.deviceIDs
            && (r.requestID in ready.deviceIDs[r.device] ==>
                  Executes(SyncPlan(c, r, stamp), stored, ready, false, stored, Fault(RequestReplayed)))
            && (r.requestID !in ready.deviceIDs[r.device] ==>
                  var d := AcceptDeviceID(ready, r.device, r.requestID, stamp);
                  Inv(d) && Saveable(d, db, None) && r.device in d.devices
                  && SyncPlan(c, r, stamp)
                     == SaveAndAnswer(d, Versions(d.fabric, r.device, d.devices[r.device].status, d.directoryVersion, d.grantVersion)))
  {
    hide Inv, SyncFault, OpenBucket, AcceptDeviceID, Durable, InSync, Saveable, Keeps;
    Syncable(c, r);
    SyncPlanKeeps(c, r, stamp);
    BucketReady(c, r.device, stored);
    OpenFrame(c, r.device);
    var ready := OpenBucket(c, r.device);
    if r.requestID !in ready.deviceIDs[r.device] {
      var d := AcceptDeviceID(ready, r.device, r.requestID, stamp);
      AcceptedDevices(ready, r.device, r.requestID, stamp);
      SyncedSaveable(c, d, db, stored);
      KeptOne(d, SyncPlan(c, r, stamp).reply);
    }
  }

  lemma Syncable(c: Core, r: Sync)
    requires SyncFault(c, r).None?
    ensures r.device in c.devices && c.fabric != ""
  {
  }

  lemma PublishRefused(c: Core, r: Publication, stamp: int, stored: Option<Core>)
    ensures PublicationFault(c, r).Some? ==> Executes(PublishPlan(c, r, stamp), stored, c, false, stored, Fault(PublicationFault(c, r).value))
  {
    hide PublicationFault;
  }

  lemma PublishStart(c: Core, r: Publication, stamp: int, db: Database, stored: Option<Core>)
    requires PublicationFault(c, r).None? && Inv(c) && Durable(db, stored) && InSync(stored, c)
    ensures r.device in c.devices
    ensures var ready := OpenBucket(c, r.device);
            && Inv(ready) && InSync(stored, ready) && r.device in ready.deviceIDs && r.device in ready.devices && ready.bindings == c.bindings
            && (BindingFault(ready, r).Some? ==>
                  Executes(PublishPlan(c, r, stamp), stored, ready, false, stored, Fault(BindingFault(ready, r).value)))
            && (BindingFault(ready, r).None? ==> Keeps(FitPlan(ready, r, stamp)) && PublishPlan(c, r, stamp) == FitPlan(ready, r, stamp))
  {
    hide Inv, PublicationFault, BindingFault, OpenBucket, Durable, InSync, Saveable, Keeps, FitPlan;
    Publishable(c, r);
    PublishPlanKeeps(c, r, stamp);
    BucketReady(c, r.device, stored);
    OpenFrame(c, r.device);
  }

  lemma FitStart(c: Core, r: Publication, stamp: int, db: Database, stored: Option<Core>)
    requires Keeps(FitPlan(c, r, stamp)) && Durable(db, stored) && InSync(stored, c)
    ensures var recorded := AcceptDeviceID(c, r.device, r.requestID, stamp);
            var d := if Changes(c, r.binding) then Bind(recorded, r.binding) else recorded;
            Inv(d) && Saveable(d, db, None)
            && FitPlan(c, r, stamp)
               == SaveAndAnswer(d, Published(r.device, r.binding.capability, d.directoryVersion, Changes(c, r.binding)))
  {
    hide Inv, AcceptDeviceID, Durable, InSync, Saveable, Keeps, Changes;
    var recorded := AcceptDeviceID(c, r.device, r.requestID, stamp);
    var d := if Changes(c, r.binding) then Bind(recorded, r.binding) else recorded;
    AcceptedDevices(c, r.device, r.requestID, stamp);
    SyncedSaveable(c, d, db, stored);
    KeptOne(d, FitPlan(c, r, stamp).reply);
  }

  // ---- the published claims -----------------------------------------------------------------

  datatype Claim = Claim(device: string, key: Key, binding: Binding)

  function ClaimSubject(claim: Claim): (string, string) { (claim.device, claim.binding.capability) }

  /** The bindings of active Devices, with the Device's key. */
  function ClaimTable(c: Core): map<(string, string), Claim> {
    map k | k in c.bindings && c.bindings[k].device in c.devices && c.devices[c.bindings[k].device].status == ACTIVE ::
      Claim(c.bindings[k].device, c.devices[c.bindings[k].device].key, c.bindings[k])
  }

  predicate ClaimBefore(a: Claim, b: Claim) {
    if a.device != b.device then Before(a.device, b.device) else Before(a.binding.capability, b.binding.capability)
  }

  lemma ClaimsAreOrdered()
    ensures Sorting.WeakOrder(ClaimBefore)
  {
    Sorting.BeforeIsOrder();
    Sorting.OrderIsWeak(Before);
  }

  /** Every published binding once, by Device and Capability. */
  ghost predicate IsClaimList(c: Core, claims: seq<Claim>) {
    Lists(claims, ClaimSubject, ClaimTable(c)) && Sorting.Sorted(ClaimBefore, claims)
  }

  lemma ClaimOf(c: Core, k: (string, string))
    requires Inv(c) && k in c.bindings
    ensures k in ClaimTable(c) <==> c.bindings[k].device in c.devices && c.devices[c.bindings[k].device].status == ACTIVE
    ensures k in ClaimTable(c) ==> ClaimTable(c)[k] == Claim(c.bindings[k].device, c.devices[c.bindings[k].device].key, c.bindings[k])
    ensures k in ClaimTable(c) ==> ClaimSubject(ClaimTable(c)[k]) == k
  {
    hide Inv;
    ClaimSubjects(c);
  }

  /** The claims for the keys outside `remaining`, in any order. */
  ghost predicate Claimed(c: Core, remaining: set<(string, string)>, listed: seq<Claim>) {
    && (forall i, j | 0 <= i < j < |listed| :: ClaimSubject(listed[i]) != ClaimSubject(listed[j]))
    && (forall x | x in listed :: ClaimSubject(x) in ClaimTable(c) && ClaimSubject(x) !in remaining && ClaimTable(c)[ClaimSubject(x)] == x)
    && (forall k | k in ClaimTable(c) && k !in remaining :: ClaimTable(c)[k] in listed)
  }

  method ActiveClaims(ghost c: Core, devices: map<string, DeviceRecord>, bindings: map<(string, string), Binding>) returns (claims: seq<Claim>)
    requires Inv(c) && c.devices == devices && c.bindings == bindings
    ensures IsClaimList(c, claims)
  {
    hide Inv, ClaimTable, ClaimSubject;
    var listed := [];
    ClaimKeys(c);
    var remaining := bindings.Keys;
    while remaining != {}
      invariant remaining <= bindings.Keys && Claimed(c, remaining, listed)
      decreases |remaining|
    {
      var k :| k in remaining;
      remaining := remaining - {k};
      var binding := bindings[k];
      ClaimOf(c, k);
      if binding.device in devices && devices[binding.device].status == ACTIVE {
        listed := listed + [Claim(binding.device, devices[binding.device].key, binding)];
      }
    }
    ClaimSubjects(c);
    ClaimsAreOrdered();
    claims := Sorting.SortedCopy(ClaimBefore, listed);
    ListsPermuted(listed, claims, ClaimSubject, ClaimTable(c));
  }

  lemma ClaimKeys(c: Core)
    ensures ClaimTable(c).Keys <= c.bindings.Keys
  {
  }

  lemma ClaimSubjects(c: Core)
    requires Inv(c)
    ensures forall k | k in ClaimTable(c) :: ClaimSubject(ClaimTable(c)[k]) == k
  {
    InvTables(c);
    NamesMatch(c);
    hide Inv, Tables;
    forall k | k in ClaimTable(c)
      ensures ClaimSubject(ClaimTable(c)[k]) == k
    {
      assert SubjectOf(c.bindings[k]) == k;
    }
  }

  /** No published binding is missing from the list. */
  lemma EveryBindingIsClaimed(c: Core)
    requires Inv(c)
    ensures ClaimTable(c).Keys == c.bindings.Keys
    ensures forall k | k in c.bindings :: ClaimTable(c)[k].binding == c.bindings[k]
  {
    hide Histories, ShellBinding.Verify;
    forall k | k in c.bindings
      ensures k in ClaimTable(c)
    {
      assert BindingOK(c, k);
    }
  }

  lemma SameClaims(c: Core, id: string, claims: seq<Claim>)
    requires IsClaimList(AcceptOwnerID(c, id), claims)
    ensures IsClaimList(c, claims)
  {
    assert ClaimTable(AcceptOwnerID(c, id)) == ClaimTable(c);
  }

  lemma ListRefused(c: Core, r: Listing, stored: Option<Core>)
    ensures var refused := OwnerRequestFault(c, r.schema, r.version, r.owner, r.requestID, ListingOf(r), r.signature);
            refused.Some? ==> Executes(ListPlan(c, r), stored, c, false, stored, Fault(refused.value))
  {
    hide OwnerRequestFault;
  }

  lemma ListStart(c: Core, r: Listing, db: Database, stored: Option<Core>)
    requires OwnerRequestFault(c, r.schema, r.version, r.owner, r.requestID, ListingOf(r), r.signature).None?
    requires Inv(c) && Durable(db, stored) && InSync(stored, c)
    ensures var d := AcceptOwnerID(c, r.requestID);
            Inv(d) && Saveable(d, db, None) && ListPlan(c, r) == SaveAndAnswer(d, Listed(d.fabric, d.directoryVersion))
  {
    hide Inv, OwnerRequestFault, Durable, InSync, Saveable, Keeps, Remembered, Queued;
    ListPlanKeeps(c, r);
    var d := AcceptOwnerID(c, r.requestID);
    SyncedSaveable(c, d, db, stored);
    KeptOne(d, ListPlan(c, r).reply);
  }

  // ---- opening ----------------------------------------------------------------------------------

  ghost function StateAfterOpen(was: Option<Core>, stamps: Readings, later: int): Core {
    match was
    case None => Empty()
    case Some(c) => Prune(Reopened(c, stamps), later)
  }

  lemma OpenedControl(db: Database, was: Option<Core>, stamps: Readings)
    requires Durable(db, was)
    ensures db.control.Some? <==> was.Some?
    ensures was.None? ==> Inv(Empty()) && InSync(was, Empty())
    ensures was.Some? ==> Rebuilt(db.control.value, stamps, was.value.log) == Reopened(was.value, stamps)
    ensures was.Some? ==> (Acceptable(db.control.value) <==> |was.value.deviceOrder| <= MAX_DEVICE_REPLAY_BUCKETS)
  {
    hide Inv, IsSnapshot, Rebuilt, Reopened, Acceptable;
    EmptyIsSafe();
    if was.Some? {
      SnapshotReadsBack(db.control.value, was.value, stamps);
      RestartAcceptsExactly(db.control.value, was.value);
    }
  }

  lemma OpenedPruned(db: Database, c: Core, stamps: Readings, later: int)
    requires Durable(db, Some(c))
    ensures var d := Prune(Reopened(c, stamps), later);
            Inv(d) && Saveable(d, db, None) && (!Prunes(Reopened(c, stamps), later) ==> InSync(Some(c), d))
  {
    hide Inv, IsSnapshot, Prune, Prunes;
    ReopenedKeeps(c, stamps);
    var reopened := Reopened(c, stamps);
    PruneFrame(reopened, later);
    PruneNothing(reopened, later);
    if c.fabric != "" {
      PruneKeeps(reopened, later);
    } else {
      NothingToPrune(c, stamps, later);
    }
    SyncedSaveable(c, Prune(reopened, later), db, Some(c));
  }

  lemma NothingToPrune(c: Core, stamps: Readings, later: int)
    requires Inv(c) && c.fabric == ""
    ensures Prune(Reopened(c, stamps), later) == Reopened(c, stamps)
  {
    hide Histories;
    UninitializedIsEmpty(c);
    PruneNothing(Reopened(c, stamps), later);
  }
}
