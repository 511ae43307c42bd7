/** The invariant of the Manager's tables and the proof that every atomic change keeps it. */
module EnrollmentSafety {
  import opened Common
  import opened Identity
  import opened Snapshots
  import opened Enrollment
  import opened EnrollmentHistory
  import ShellBinding

  // ---- the invariant --------------------------------------------------------------------

  predicate ActivationOK(a: Activation, code: Code) {
    && a.code == code && ValidKey(a.key) && a.device == DeviceID(a.key)
    && a.status in {PENDING, APPROVED} && a.interval > 0 && a.expiresAt > 0
  }

  /** User codes and live activations point at each other. */
  predicate CodesLinked(c: Core) {
    && (forall code | code in c.activations ::
          c.activations[code].userCode in c.userCodes && c.userCodes[c.activations[code].userCode] == code)
    && (forall u | u in c.userCodes :: c.userCodes[u] in c.activations && c.activations[c.userCodes[u]].userCode == u)
  }

  predicate OneEach(c: Core) {
    forall a, b | a in c.activations && b in c.activations && a != b :: c.activations[a].device != c.activations[b].device
  }

  /** No Device that is active has an activation under way. */
  predicate PendingNotActive(c: Core) {
    forall code | code in c.activations && c.activations[code].device in c.devices ::
      c.devices[c.activations[code].device].status == REVOKED
  }

  predicate ActivationsOK(c: Core) {
    && (forall code | code in c.activations :: ActivationOK(c.activations[code], code))
    && CodesLinked(c) && OneEach(c) && PendingNotActive(c) && |c.activations| <= MAX_PENDING_ACTIVATIONS
  }

  predicate DeviceOK(d: DeviceRecord, id: string) {
    d.id == id && ValidKey(d.key) && DeviceID(d.key) == id && d.status in {ACTIVE, REVOKED}
  }

  predicate DevicesOK(c: Core) {
    forall id | id in c.devices :: DeviceOK(c.devices[id], id)
  }

  predicate OwnerActive(c: Core) {
    && ValidIdentifier(c.fabric, LONGEST_ENROLLMENT_IDENTIFIER) && ValidKey(c.ownerKey) && c.owner == DeviceID(c.ownerKey)
    && c.owner in c.devices && c.devices[c.owner].status == ACTIVE && c.devices[c.owner].key == c.ownerKey
  }

  predicate BindingOK(c: Core, k: (string, string))
    requires k in c.bindings
  {
    var b := c.bindings[k];
    && b.device == k.0 && b.capability == k.1 && k.0 in c.devices && c.devices[k.0].status == ACTIVE
    && ShellBinding.Verify(k.0, c.devices[k.0].key, k.1, c.fabric, b)
  }

  predicate BindingsOK(c: Core) {
    (forall k | k in c.bindings :: BindingOK(c, k)) && |c.bindings| <= MAX_PUBLISHED_BINDINGS
  }

  predicate OwnerReplayOK(c: Core) {
    && c.ownerOrder == LastN(OwnerHistory(c.log), MAX_OWNER_REPLAY_IDS) && c.ownerIDs == Elems(c.ownerOrder)
    && (forall id | id in c.ownerIDs :: ValidRequestID(id))
  }

  predicate BucketOK(c: Core, device: string) {
    && Order(c, device) == LastN(DeviceHistory(c.log, device), MAX_DEVICE_REPLAY_IDS)
    && Bucket(c, device) == Elems(Order(c, device))
    && (forall id | id in Bucket(c, device) :: ValidRequestID(id))
    && (device in c.deviceOrder ==> c.deviceOrder[device] != [] && device in c.deviceIDs && device != "")
    && (device in c.deviceSince ==> device in c.deviceIDs)
  }

  ghost predicate BucketsOK(c: Core) {
    forall device: string :: BucketOK(c, device)
  }

  predicate CountersOK(c: Core) {
    && c.window == LastWindow(c.log) && c.attempts == AttemptsSince(c.log)
    && c.directoryVersion == (if c.fabric == "" then 0 else 1 + DirectoryChanges(c.log))
    && c.grantVersion == (if c.fabric == "" then 0 else 1 + Revocations(c.log))
  }

  ghost predicate DevicesTraced(c: Core) {
    && OwnerIn(c.log) == (if c.fabric == "" then None else Some((c.owner, c.ownerKey)))
    && forall d: string :: StatusIn(c.log, d) == if d in c.devices then c.devices[d].status else ""
  }

  predicate ActivationTraced(c: Core, code: Code)
    requires code in c.activations
  {
    var a := c.activations[code];
    && BeginOf(c.log, code).Some? && BeginOf(c.log, code).value.userCode == a.userCode && BeginOf(c.log, code).value.device == a.device
    && BeginOf(c.log, code).value.key == a.key && BeginOf(c.log, code).value.expires == a.expiresAt
    && !ActivatedIn(c.log, code) && (a.status == APPROVED ==> ApprovedIn(c.log, code))
  }

  predicate ActivationsTraced(c: Core) {
    forall code | code in c.activations :: ActivationTraced(c, code)
  }

  ghost predicate Tables(c: Core) {
    ActivationsOK(c) && DevicesOK(c) && BindingsOK(c) && if c.fabric == "" then c == Empty() else OwnerActive(c)
  }

  ghost predicate Histories(c: Core) {
    Lawful(c.log) && OwnerReplayOK(c) && BucketsOK(c) && CountersOK(c) && DevicesTraced(c) && ActivationsTraced(c)
  }

  ghost predicate Inv(c: Core) {
    Tables(c) && Histories(c)
  }

  lemma EmptyIsSafe()
    ensures Inv(Empty())
  {
  }

  // ---- how one more event changes what a history says ---------------------------------------

  lemma AfterHistories(log: seq<Event>, e: Event)
    ensures OwnerHistory(log + [e]) == if e.OwnerAccepted? then OwnerHistory(log) + [e.id] else OwnerHistory(log)
    ensures forall d: string :: DeviceHistory(log + [e], d) ==
              if e.BucketsDropped? && d in e.devices then []
              else if e.DeviceAccepted? && e.device == d then DeviceHistory(log, d) + [e.id]
              else DeviceHistory(log, d)
  {
    Extends(log, e);
  }

  lemma AfterCounters(log: seq<Event>, e: Event)
    ensures LastWindow(log + [e]) == if e.WindowOpened? then e.at else LastWindow(log)
    ensures AttemptsSince(log + [e]) == if e.WindowOpened? then 0 else AttemptsSince(log) + if e.WrongCode? then 1 else 0
    ensures DirectoryChanges(log + [e]) == DirectoryChanges(log) + if e.Activated? || e.RevokedBy? || e.BindingChanged? then 1 else 0
    ensures Revocations(log + [e]) == Revocations(log) + if e.RevokedBy? then 1 else 0
  {
    Extends(log, e);
  }

  lemma AfterDevices(log: seq<Event>, e: Event)
    ensures OwnerIn(log + [e]) == if e.Installed? then Some((e.owner, e.key)) else OwnerIn(log)
    ensures forall d: string :: StatusIn(log + [e], d) ==
              if e.Installed? && e.owner == d then ACTIVE
              else if e.Activated? && e.device == d then ACTIVE
              else if e.RevokedBy? && e.device == d then REVOKED
              else StatusIn(log, d)
  {
    Extends(log, e);
  }

  lemma AfterActivations(log: seq<Event>, e: Event)
    ensures forall code: Code :: BeginOf(log + [e], code) == if e.Began? && e.code == code then Some(e) else BeginOf(log, code)
    ensures forall code: Code :: ApprovedIn(log + [e], code) == ((e.ApprovalGiven? && e.code == code) || ApprovedIn(log, code))
    ensures forall code: Code :: ActivatedIn(log + [e], code) == ((e.Activated? && e.code == code) || ActivatedIn(log, code))
  {
    Extends(log, e);
  }

  /** An event that no replay table depends on leaves them as they are. */
  lemma ReplayUntouched(c: Core, d: Core, e: Event)
    requires OwnerReplayOK(c) && BucketsOK(c) && d.log == c.log + [e]
    requires !e.OwnerAccepted? && !e.DeviceAccepted? && !e.BucketsDropped?
    requires d.ownerIDs == c.ownerIDs && d.ownerOrder == c.ownerOrder
    requires d.deviceIDs == c.deviceIDs && d.deviceOrder == c.deviceOrder && d.deviceSince == c.deviceSince
    ensures OwnerReplayOK(d) && BucketsOK(d)
  {
    hide OwnerHistory, BucketsOK;
    AfterHistories(c.log, e);
    BucketsSurvive(c, d, e);
  }

  lemma DevicesUntouched(c: Core, d: Core, e: Event)
    requires DevicesTraced(c) && d.log == c.log + [e] && !e.Installed? && !e.Activated? && !e.RevokedBy?
    requires d.devices == c.devices && d.fabric == c.fabric && d.owner == c.owner && d.ownerKey == c.ownerKey
    ensures DevicesTraced(d)
  {
    hide OwnerIn, StatusIn;
    AfterDevices(c.log, e);
  }

  lemma ActivationsUntouched(c: Core, d: Core, e: Event)
    requires ActivationsTraced(c) && d.log == c.log + [e] && !e.Began? && !e.ApprovalGiven? && !e.Activated?
    requires d.activations == c.activations
    ensures ActivationsTraced(d)
  {
    hide BeginOf, ApprovedIn, ActivatedIn;
    AfterActivations(c.log, e);
    forall code | code in d.activations
      ensures ActivationTraced(d, code)
    {
      assert ActivationTraced(c, code);
    }
  }

  // ---- request IDs --------------------------------------------------------------------------

  /** Recording an ID in a bounded queue with its set. */
  lemma QueueStep(history: seq<string>, order: seq<string>, ids: set<string>, id: string, capacity: nat)
    requires capacity > 0 && NeverInWindow(history, capacity) && order == LastN(history, capacity) && ids == Elems(order) && id !in ids
    ensures Queued(order, id, capacity) == LastN(history + [id], capacity)
    ensures Remembered(ids, order, id, capacity) == Elems(Queued(order, id, capacity))
    ensures Queued(order, id, capacity) != []
  {
    hide NeverInWindow;
    WindowStep(history, id, capacity);
    WindowHasNoDuplicates(history, capacity);
    var longer := order + [id];
    assert Elems(longer) == ids + {id};
    if |longer| > capacity {
      assert longer == [longer[0]] + longer[1..];
      assert longer[0] !in longer[1..];
    }
  }

  lemma AcceptOwnerIDKeeps(c: Core, id: string)
    requires Inv(c) && c.fabric != "" && id !in c.ownerIDs && ValidRequestID(id)
    ensures Inv(AcceptOwnerID(c, id))
  {
    hide Inv, Tables, Histories, Lawful, May, OwnerReplayOK, BucketsOK, CountersOK, DevicesTraced, ActivationsTraced;
    var d, e := AcceptOwnerID(c, id), OwnerAccepted(id);
    InvParts(c);
    OwnerIDIsNew(c, id);
    LawfulExtends(c.log, e);
    SameTables(c, d);
    OwnerQueueKeeps(c, id);
    BucketsSurvive(c, d, e);
    CountersUntouched(c, d, e);
    DevicesUntouched(c, d, e);
    ActivationsUntouched(c, d, e);
    InvWhole(d);
  }

  lemma InvParts(c: Core)
    requires Inv(c)
    ensures Tables(c) && Lawful(c.log) && OwnerReplayOK(c) && BucketsOK(c) && CountersOK(c) && DevicesTraced(c) && ActivationsTraced(c)
  {
  }

  lemma InvWhole(c: Core)
    requires Tables(c) && Lawful(c.log) && OwnerReplayOK(c) && BucketsOK(c) && CountersOK(c) && DevicesTraced(c) && ActivationsTraced(c)
    ensures Inv(c)
  {
  }

  lemma OwnerQueueKeeps(c: Core, id: string)
    requires Lawful(c.log) && OwnerReplayOK(c) && id !in c.ownerIDs && ValidRequestID(id)
    ensures OwnerReplayOK(AcceptOwnerID(c, id))
  {
    hide Lawful, OwnerHistory, LastN, Elems, ValidRequestID;
    OwnerIDsNeverInWindow(c.log);
    QueueStep(OwnerHistory(c.log), c.ownerOrder, c.ownerIDs, id, MAX_OWNER_REPLAY_IDS);
    AfterHistories(c.log, OwnerAccepted(id));
    hide Queued;
  }

  lemma CountersUntouched(c: Core, d: Core, e: Event)
    requires CountersOK(c) && d.log == c.log + [e]
    requires !e.WindowOpened? && !e.WrongCode? && !e.Activated? && !e.RevokedBy? && !e.BindingChanged?
    requires d.fabric == c.fabric && d.directoryVersion == c.directoryVersion && d.grantVersion == c.grantVersion
    requires d.window == c.window && d.attempts == c.attempts
    ensures CountersOK(d)
  {
    AfterCounters(c.log, e);
  }

  lemma OwnerIDIsNew(c: Core, id: string)
    requires OwnerReplayOK(c) && id !in c.ownerIDs
    ensures May(c.log, OwnerAccepted(id))
  {
  }

  /** The tables do not depend on the replay and rate-limit fields or on the log. */
  lemma SameTables(c: Core, d: Core)
    requires Tables(c) && c.fabric != ""
    requires d.fabric == c.fabric && d.owner == c.owner && d.ownerKey == c.ownerKey && d.activations == c.activations
             && d.userCodes == c.userCodes && d.devices == c.devices && d.bindings == c.bindings
    ensures Tables(d)
  {
    forall k | k in d.bindings
      ensures BindingOK(d, k)
    {
      assert BindingOK(c, k);
    }
  }

  lemma BucketsSurvive(c: Core, d: Core, e: Event)
    requires BucketsOK(c) && d.log == c.log + [e] && !e.DeviceAccepted? && !e.BucketsDropped?
    requires d.deviceIDs == c.deviceIDs && d.deviceOrder == c.deviceOrder && d.deviceSince == c.deviceSince
    ensures BucketsOK(d)
  {
    hide DeviceHistory, LastN, Elems;
    AfterHistories(c.log, e);
    forall device: string
      ensures BucketOK(d, device)
    {
      assert BucketOK(c, device);
    }
  }

  lemma AcceptDeviceIDKeeps(c: Core, device: string, id: string, now: int)
    requires Inv(c) && c.fabric != "" && device != "" && id !in Bucket(c, device) && ValidRequestID(id)
    ensures Inv(AcceptDeviceID(c, device, id, now))
  {
    hide Inv, Tables, Histories, Lawful, May, OwnerReplayOK, BucketsOK, CountersOK, DevicesTraced, ActivationsTraced;
    var d, e := AcceptDeviceID(c, device, id, now), DeviceAccepted(device, id);
    InvParts(c);
    DeviceIDIsNew(c, device, id);
    LawfulExtends(c.log, e);
    SameTables(c, d);
    OwnerQueueSurvives(c, d, e);
    DeviceQueueKeeps(c, device, id, now);
    CountersUntouched(c, d, e);
    DevicesUntouched(c, d, e);
    ActivationsUntouched(c, d, e);
    InvWhole(d);
  }

  lemma DeviceIDIsNew(c: Core, device: string, id: string)
    requires BucketsOK(c) && id !in Bucket(c, device)
    ensures May(c.log, DeviceAccepted(device, id))
  {
    hide DeviceHistory, LastN;
    assert BucketOK(c, device);
  }

  lemma OwnerQueueSurvives(c: Core, d: Core, e: Event)
    requires OwnerReplayOK(c) && d.log == c.log + [e] && !e.OwnerAccepted?
    requires d.ownerIDs == c.ownerIDs && d.ownerOrder == c.ownerOrder
    ensures OwnerReplayOK(d)
  {
    hide OwnerHistory, LastN, Elems;
    AfterHistories(c.log, e);
  }

  lemma DeviceQueueKeeps(c: Core, device: string, id: string, now: int)
    requires Lawful(c.log) && BucketsOK(c) && device != "" && id !in Bucket(c, device) && ValidRequestID(id)
    ensures BucketsOK(AcceptDeviceID(c, device, id, now))
  {
    hide Lawful, DeviceHistory, LastN, Elems, ValidRequestID, Queued;
    var d := AcceptDeviceID(c, device, id, now);
    DeviceIDsNeverInWindow(c.log, device);
    assert BucketOK(c, device);
    QueueStep(DeviceHistory(c.log, device), Order(c, device), Bucket(c, device), id, MAX_DEVICE_REPLAY_IDS);
    AfterHistories(c.log, DeviceAccepted(device, id));
    forall other: string
      ensures BucketOK(d, other)
    {
      assert BucketOK(c, other);
    }
  }

  lemma OpenBucketKeeps(c: Core, device: string)
    requires Inv(c) && c.fabric != ""
    ensures Inv(OpenBucket(c, device))
  {
    hide Inv, Tables, Histories, Lawful, May, OwnerReplayOK, BucketsOK, CountersOK, DevicesTraced, ActivationsTraced;
    InvParts(c);
    var d := OpenBucket(c, device);
    if device !in c.deviceIDs {
      SameTables(c, d);
      EmptyBucketKeeps(c, device);
      SameLog(c, d);
      InvWhole(d);
    }
  }

  lemma EmptyBucketKeeps(c: Core, device: string)
    requires BucketsOK(c)
    ensures BucketsOK(OpenBucket(c, device))
  {
    hide DeviceHistory, LastN;
    var d := OpenBucket(c, device);
    forall other: string
      ensures BucketOK(d, other)
    {
      assert BucketOK(c, other);
    }
  }

  /** Everything but the buckets, when only they differ. */
  lemma SameLog(c: Core, d: Core)
    requires OwnerReplayOK(c) && CountersOK(c) && DevicesTraced(c) && ActivationsTraced(c)
    requires d == c.(deviceIDs := d.deviceIDs, deviceOrder := d.deviceOrder, deviceSince := d.deviceSince)
    ensures OwnerReplayOK(d) && CountersOK(d) && DevicesTraced(d) && ActivationsTraced(d)
  {
    hide OwnerHistory, LastN, OwnerIn, StatusIn, BeginOf, ApprovedIn, ActivatedIn, LastWindow, AttemptsSince;
    forall code | code in d.activations
      ensures ActivationTraced(d, code)
    {
      assert ActivationTraced(c, code);
    }
  }

  // ---- pruning ---------------------------------------------------------------------------------

  /** Fewer activations, with exactly the user codes of the rest. */
  predicate Thinned(c: Core, d: Core) {
    && d == c.(activations := d.activations, userCodes := d.userCodes)
    && (forall code | code in d.activations :: code in c.activations && d.activations[code] == c.activations[code])
    && (forall u | u in d.userCodes :: u in c.userCodes && d.userCodes[u] == c.userCodes[u])
    && (forall u | u in c.userCodes :: u in d.userCodes <==> c.userCodes[u] in d.activations)
  }

  lemma ThinningKeeps(c: Core, d: Core)
    requires Inv(c) && Thinned(c, d)
    ensures Inv(d)
  {
    hide Inv, Tables, Histories, Lawful, May, OwnerReplayOK, BucketsOK, CountersOK, DevicesTraced, ActivationsTraced, Thinned;
    InvParts(c);
    ThinnedTables(c, d);
    ThinnedHistories(c, d);
    InvWhole(d);
  }

  lemma ThinnedTables(c: Core, d: Core)
    requires Tables(c) && Thinned(c, d)
    ensures Tables(d)
  {
    hide ActivationsOK, Thinned, BindingOK, DevicesOK;
    ThinnedRest(c, d);
    ThinnedActivations(c, d);
    ThinnedBindings(c, d);
  }

  lemma ThinnedRest(c: Core, d: Core)
    requires Thinned(c, d)
    ensures DevicesOK(c) ==> DevicesOK(d)
    ensures c == Empty() ==> d == Empty()
    ensures d.fabric == c.fabric && OwnerActive(d) == OwnerActive(c) && d.bindings == c.bindings && d.devices == c.devices
  {
    if c == Empty() {
      assert d.activations == map[] && d.userCodes == map[];
    }
  }

  lemma ThinnedBindings(c: Core, d: Core)
    requires BindingsOK(c) && d.fabric == c.fabric && d.bindings == c.bindings && d.devices == c.devices
    ensures BindingsOK(d)
  {
    hide ShellBinding.Verify;
    forall k | k in d.bindings
      ensures BindingOK(d, k)
    {
      assert BindingOK(c, k);
    }
  }

  lemma ThinnedActivations(c: Core, d: Core)
    requires ActivationsOK(c) && Thinned(c, d)
    ensures ActivationsOK(d)
  {
    hide ActivationOK, CodesLinked, OneEach, PendingNotActive;
    assert d.activations.Keys <= c.activations.Keys;
    SubsetIsSmaller(d.activations.Keys, c.activations.Keys);
    ThinnedLinks(c, d);
    ThinnedAlone(c, d);
  }

  lemma ThinnedAlone(c: Core, d: Core)
    requires OneEach(c) && PendingNotActive(c) && Thinned(c, d)
    ensures OneEach(d) && PendingNotActive(d)
  {
  }

  lemma ThinnedLinks(c: Core, d: Core)
    requires CodesLinked(c) && Thinned(c, d)
    ensures CodesLinked(d)
  {
  }

  lemma ThinnedHistories(c: Core, d: Core)
    requires OwnerReplayOK(c) && BucketsOK(c) && CountersOK(c) && DevicesTraced(c) && ActivationsTraced(c) && Thinned(c, d)
    ensures OwnerReplayOK(d) && BucketsOK(d) && CountersOK(d) && DevicesTraced(d) && ActivationsTraced(d) && d.log == c.log
  {
    hide OwnerHistory, DeviceHistory, LastN, OwnerIn, StatusIn, BeginOf, ApprovedIn, ActivatedIn, LastWindow, AttemptsSince;
    forall device: string
      ensures BucketOK(d, device)
    {
      assert BucketOK(c, device);
    }
    forall code | code in d.activations
      ensures ActivationTraced(d, code)
    {
      assert ActivationTraced(c, code);
    }
  }

  lemma DropThins(c: Core, code: Code)
    requires CodesLinked(c) && code in c.activations
    ensures Thinned(c, Drop(c, code))
  {
  }

  lemma DropKeeps(c: Core, code: Code)
    requires Inv(c) && code in c.activations
    ensures Inv(Drop(c, code))
  {
    DropThins(c, code);
    ThinningKeeps(c, Drop(c, code));
  }

  lemma DropExpiredThins(c: Core, now: int)
    requires CodesLinked(c)
    ensures Thinned(c, DropExpired(c, now))
  {
    var d := DropExpired(c, now);
    forall u | u in c.userCodes
      ensures u in d.userCodes <==> c.userCodes[u] in d.activations
    {
      var code := c.userCodes[u];
      if code in Expired(c, now) {
        assert u in ExpiredUserCodes(c, now);
      }
    }
  }

  lemma DropBucketsKeeps(c: Core, devices: set<string>)
    requires Inv(c) && c.fabric != "" && forall d | d in devices :: d !in c.devices
    ensures Inv(DropBuckets(c, devices))
  {
    hide Inv, Tables, Histories, Lawful, May, OwnerReplayOK, BucketsOK, CountersOK, DevicesTraced, ActivationsTraced;
    var d, e := DropBuckets(c, devices), BucketsDropped(devices);
    InvParts(c);
    if devices != {} {
      UnregisteredMayDrop(c, devices);
      LawfulExtends(c.log, e);
      SameTables(c, d);
      OwnerQueueSurvives(c, d, e);
      DroppedBuckets(c, devices);
      CountersUntouched(c, d, e);
      DevicesUntouched(c, d, e);
      ActivationsUntouched(c, d, e);
      InvWhole(d);
    }
  }

  lemma UnregisteredMayDrop(c: Core, devices: set<string>)
    requires DevicesTraced(c) && forall d | d in devices :: d !in c.devices
    ensures May(c.log, BucketsDropped(devices))
  {
    hide StatusIn;
  }

  lemma DroppedBuckets(c: Core, devices: set<string>)
    requires BucketsOK(c) && devices != {}
    ensures BucketsOK(DropBuckets(c, devices))
  {
    hide DeviceHistory;
    var d := DropBuckets(c, devices);
    AfterHistories(c.log, BucketsDropped(devices));
    forall other: string
      ensures BucketOK(d, other)
    {
      assert BucketOK(c, other);
    }
  }

  lemma PruneKeeps(c: Core, now: int)
    requires Inv(c) && c.fabric != ""
    ensures Inv(Prune(c, now))
  {
    hide Inv, DropBuckets;
    DropExpiredKeeps(c, now);
    var live := DropExpired(c, now);
    DropBucketsKeeps(live, StaleBuckets(live, now));
  }

  lemma DropExpiredKeeps(c: Core, now: int)
    requires Inv(c)
    ensures Inv(DropExpired(c, now))
  {
    hide Histories;
    DropExpiredThins(c, now);
    ThinningKeeps(c, DropExpired(c, now));
  }

  // ---- the Owner ----------------------------------------------------------------------------------

  lemma InstallOwnerKeeps(fabric: string, owner: string, key: Key)
    requires ValidIdentifier(fabric, LONGEST_ENROLLMENT_IDENTIFIER) && ValidKey(key) && owner == DeviceID(key)
    ensures Inv(InstallOwner(Empty(), fabric, owner, key))
  {
    hide Inv, Tables, Histories, Lawful, May, OwnerReplayOK, BucketsOK, CountersOK, DevicesTraced, ActivationsTraced, ValidIdentifier, ValidKey, DeviceID;
    var c, e := InstallOwner(Empty(), fabric, owner, key), Installed(owner, key);
    EmptyIsSafe();
    InvParts(Empty());
    MayInstall(owner, key);
    LawfulExtends([], e);
    assert c.log == [] + [e];
    ReplayUntouched(Empty(), c, e);
    ActivationsUntouched(Empty(), c, e);
    InstalledTables(fabric, owner, key);
    InstalledTraces(fabric, owner, key);
    InvWhole(c);
  }

  lemma MayInstall(owner: string, key: Key)
    requires ValidKey(key) && owner == DeviceID(key)
    ensures May([], Installed(owner, key))
  {
  }

  lemma InstalledTables(fabric: string, owner: string, key: Key)
    requires ValidIdentifier(fabric, LONGEST_ENROLLMENT_IDENTIFIER) && ValidKey(key) && owner == DeviceID(key)
    ensures Tables(InstallOwner(Empty(), fabric, owner, key))
  {
    hide ValidIdentifier, ValidKey, DeviceID;
    IdentifierIsNotEmpty(fabric, LONGEST_ENROLLMENT_IDENTIFIER);
  }

  lemma InstalledTraces(fabric: string, owner: string, key: Key)
    requires ValidIdentifier(fabric, LONGEST_ENROLLMENT_IDENTIFIER)
    ensures CountersOK(InstallOwner(Empty(), fabric, owner, key)) && DevicesTraced(InstallOwner(Empty(), fabric, owner, key))
  {
    hide ValidIdentifier;
    IdentifierIsNotEmpty(fabric, LONGEST_ENROLLMENT_IDENTIFIER);
    var e := Installed(owner, key);
    assert [] + [e] == [e];
    AfterCounters([], e);
    AfterDevices([], e);
  }

  lemma IdentifierIsNotEmpty(id: string, longest: nat)
    requires ValidIdentifier(id, longest)
    ensures id != ""
  {
  }

  // ---- activations ----------------------------------------------------------------------------------

  /** What must hold for an activation to be started. */
  predicate CanStart(c: Core, code: Code, userCode: Code, r: Authorization, now: int) {
    && c.fabric != "" && now > 0 && BeginOf(c.log, code).None? && userCode !in c.userCodes && ValidKey(r.key) && r.device == DeviceID(r.key)
    && SignedBegin(r.device, r.key, r.signature) && !HasActivation(c, r.device) && |c.activations| < MAX_PENDING_ACTIVATIONS
    && (r.device in c.devices ==> c.devices[r.device].status != ACTIVE)
  }

  lemma StartKeeps(c: Core, code: Code, userCode: Code, r: Authorization, now: int)
    requires Inv(c) && CanStart(c, code, userCode, r, now)
    ensures Inv(Start(c, code, userCode, r, now))
  {
    hide Inv, Tables, Histories, Lawful, May, OwnerReplayOK, BucketsOK, CountersOK, DevicesTraced, ActivationsTraced, CanStart;
    var d, e := Start(c, code, userCode, r, now), Began(code, userCode, r.device, r.key, now, now + ACTIVATION_TTL, r.signature);
    InvParts(c);
    MayBegin(c, code, userCode, r, now);
    LawfulExtends(c.log, e);
    ReplayUntouched(c, d, e);
    CountersUntouched(c, d, e);
    DevicesUntouched(c, d, e);
    StartedTables(c, code, userCode, r, now);
    StartedTraces(c, code, userCode, r, now);
    InvWhole(d);
  }

  lemma MayBegin(c: Core, code: Code, userCode: Code, r: Authorization, now: int)
    requires DevicesTraced(c) && CanStart(c, code, userCode, r, now)
    ensures May(c.log, Began(code, userCode, r.device, r.key, now, now + ACTIVATION_TTL, r.signature))
  {
    hide StatusIn, BeginOf, HasActivation;
  }

  lemma NewCode(c: Core, code: Code, userCode: Code, r: Authorization, now: int)
    requires ActivationsTraced(c) && CanStart(c, code, userCode, r, now)
    ensures code !in c.activations
  {
    hide BeginOf;
    assert code in c.activations ==> ActivationTraced(c, code);
  }

  lemma StartedTables(c: Core, code: Code, userCode: Code, r: Authorization, now: int)
    requires Tables(c) && DevicesTraced(c) && ActivationsTraced(c) && CanStart(c, code, userCode, r, now)
    ensures Tables(Start(c, code, userCode, r, now))
  {
    hide DevicesTraced, ActivationsTraced, BindingOK;
    NewCode(c, code, userCode, r, now);
    var d := Start(c, code, userCode, r, now);
    ThinnedBindings(c, d);
    StartedActivations(c, code, userCode, r, now);
  }

  lemma StartedActivations(c: Core, code: Code, userCode: Code, r: Authorization, now: int)
    requires ActivationsOK(c) && DevicesOK(c) && CanStart(c, code, userCode, r, now) && code !in c.activations
    ensures ActivationsOK(Start(c, code, userCode, r, now))
  {
    hide ValidKey, DeviceID, BeginOf, Trim, ActivationOK, CodesLinked, OneEach, PendingNotActive, HasActivation, DevicesOK;
    var d := Start(c, code, userCode, r, now);
    StartedCount(c, d, code);
    StartedLinks(c, d, code, userCode);
    StartedOK(d.activations[code], code);
    StartedAlone(c, d, code);
    StartedNotActive(c, d, code);
  }

  lemma StartedCount(c: Core, d: Core, code: Code)
    requires code in d.activations && d.activations == c.activations[code := d.activations[code]] && |c.activations| < MAX_PENDING_ACTIVATIONS
    ensures |d.activations| <= MAX_PENDING_ACTIVATIONS
  {
    assert d.activations.Keys == c.activations.Keys + {code};
  }

  lemma StartedAlone(c: Core, d: Core, code: Code)
    requires OneEach(c) && code !in c.activations && code in d.activations && d.activations == c.activations[code := d.activations[code]]
    requires !HasActivation(c, d.activations[code].device)
    ensures OneEach(d)
  {
    assert forall other | other in c.activations :: c.activations[other].device != d.activations[code].device;
  }

  lemma StartedNotActive(c: Core, d: Core, code: Code)
    requires PendingNotActive(c) && DevicesOK(c) && code in d.activations && d.activations == c.activations[code := d.activations[code]]
    requires d.devices == c.devices
    requires var device := d.activations[code].device; device in c.devices ==> c.devices[device].status != ACTIVE
    ensures PendingNotActive(d)
  {
    hide ValidKey, DeviceID;
    var device := d.activations[code].device;
    assert device in c.devices ==> DeviceOK(c.devices[device], device);
  }

  lemma StartedOK(a: Activation, code: Code)
    requires a.code == code && ValidKey(a.key) && a.device == DeviceID(a.key) && a.status == PENDING && a.interval == POLLING_INTERVAL
    requires a.expiresAt > 0
    ensures ActivationOK(a, code)
  {
  }

  lemma StartedLinks(c: Core, d: Core, code: Code, userCode: Code)
    requires CodesLinked(c) && code !in c.activations && userCode !in c.userCodes
    requires code in d.activations && d.activations == c.activations[code := d.activations[code]] && d.activations[code].userCode == userCode
    requires d.userCodes == c.userCodes[userCode := code]
    ensures CodesLinked(d)
  {
  }

  lemma StartedTraces(c: Core, code: Code, userCode: Code, r: Authorization, now: int)
    requires ActivationsTraced(c) && Lawful(c.log) && CanStart(c, code, userCode, r, now)
    ensures ActivationsTraced(Start(c, code, userCode, r, now))
  {
    hide BeginOf, ApprovedIn, ActivatedIn, Lawful;
    var d := Start(c, code, userCode, r, now);
    AfterActivations(c.log, Last(d.log));
    if ActivatedIn(c.log, code) {
      ActivatedHasBegun(c.log, code);
    }
    forall other | other in d.activations
      ensures ActivationTraced(d, other)
    {
      if other != code {
        assert ActivationTraced(c, other);
      }
    }
  }

  lemma {:induction false} ActivatedHasBegun(log: seq<Event>, code: Code)
    requires Lawful(log) && ActivatedIn(log, code)
    ensures BeginOf(log, code).Some?
  {
    if !(Last(log).Activated? && Last(log).code == code) {
      ActivatedHasBegun(Init(log), code);
    }
  }

  /** A change to one activation that keeps what identifies it. */
  predicate Refined(a: Activation, b: Activation) {
    b == a.(interval := b.interval, lastPoll := b.lastPoll, status := b.status) && b.interval > 0 && b.status in {PENDING, APPROVED}
  }

  lemma RefinedTables(c: Core, d: Core, code: Code)
    requires Tables(c) && c.fabric != "" && code in c.activations && code in d.activations
    requires d == c.(activations := c.activations[code := d.activations[code]], log := d.log)
    requires Refined(c.activations[code], d.activations[code])
    ensures Tables(d)
  {
    hide BindingsOK, ActivationOK, CodesLinked, OneEach, PendingNotActive, ValidKey, DeviceID, ValidIdentifier;
    ThinnedBindings(c, d);
    assert d.activations.Keys == c.activations.Keys;
    RefinedOK(c.activations[code], d.activations[code], code);
    RefinedShape(c, d, code);
  }

  lemma RefinedOK(a: Activation, b: Activation, code: Code)
    requires ActivationOK(a, code) && Refined(a, b)
    ensures ActivationOK(b, code)
  {
  }

  lemma RefinedShape(c: Core, d: Core, code: Code)
    requires CodesLinked(c) && OneEach(c) && PendingNotActive(c) && code in c.activations && code in d.activations
    requires d.activations == c.activations[code := d.activations[code]] && d.userCodes == c.userCodes && d.devices == c.devices
    requires d.activations[code].device == c.activations[code].device && d.activations[code].userCode == c.activations[code].userCode
    ensures CodesLinked(d) && OneEach(d) && PendingNotActive(d)
  {
    assert forall other | other in d.activations :: other in c.activations && d.activations[other].device == c.activations[other].device
                                                    && d.activations[other].userCode == c.activations[other].userCode;
    SameShape(c, d);
  }

  lemma SameShape(c: Core, d: Core)
    requires CodesLinked(c) && OneEach(c) && PendingNotActive(c)
    requires d.activations.Keys == c.activations.Keys && d.userCodes == c.userCodes && d.devices == c.devices
    requires forall other | other in d.activations :: d.activations[other].device == c.activations[other].device
                                                      && d.activations[other].userCode == c.activations[other].userCode
    ensures CodesLinked(d) && OneEach(d) && PendingNotActive(d)
  {
  }

  lemma PolledKeeps(c: Core, code: Code, now: int)
    requires Inv(c) && c.fabric != "" && code in c.activations
    ensures Inv(Polled(c, code, now))
  {
    hide Inv, Tables, Histories, Lawful, May, OwnerReplayOK, BucketsOK, CountersOK, DevicesTraced, ActivationsTraced;
    InvParts(c);
    ActivationHolds(c, code);
    var d := Polled(c, code, now);
    RefinedTables(c, d, code);
    PolledHistories(c, code, now);
    InvWhole(d);
  }

  lemma ActivationHolds(c: Core, code: Code)
    requires Tables(c) && code in c.activations
    ensures ActivationOK(c.activations[code], code)
  {
  }

  lemma PolledHistories(c: Core, code: Code, now: int)
    requires OwnerReplayOK(c) && BucketsOK(c) && CountersOK(c) && DevicesTraced(c) && ActivationsTraced(c) && code in c.activations
    ensures var d := Polled(c, code, now);
            OwnerReplayOK(d) && BucketsOK(d) && CountersOK(d) && DevicesTraced(d) && ActivationsTraced(d) && d.log == c.log
  {
    hide OwnerHistory, DeviceHistory, LastN, OwnerIn, StatusIn, BeginOf, ApprovedIn, ActivatedIn, LastWindow, AttemptsSince;
    var d := Polled(c, code, now);
    forall device: string
      ensures BucketOK(d, device)
    {
      assert BucketOK(c, device);
    }
    forall other | other in d.activations
      ensures ActivationTraced(d, other)
    {
      assert ActivationTraced(c, other);
    }
  }

  /** What must hold for an approval to be given. */
  predicate CanApprove(c: Core, code: Code, r: Approval, at: int) {
    && c.fabric != "" && code in c.activations && at < c.activations[code].expiresAt && c.activations[code].userCode == r.userCode
    && r.owner == c.owner && Verifies(c.ownerKey, ApprovalOf(r), r.signature)
  }

  lemma ApproveKeeps(c: Core, code: Code, r: Approval, at: int)
    requires Inv(c) && CanApprove(c, code, r, at)
    ensures Inv(Approve(c, code, r, at))
  {
    hide Inv, Tables, Histories, Lawful, May, OwnerReplayOK, BucketsOK, CountersOK, DevicesTraced, ActivationsTraced;
    var d, e := Approve(c, code, r, at), ApprovalGiven(code, at, r.requestID, r.version, r.signature);
    InvParts(c);
    ActivationHolds(c, code);
    MayApprove(c, code, r, at);
    LawfulExtends(c.log, e);
    ReplayUntouched(c, d, e);
    CountersUntouched(c, d, e);
    DevicesUntouched(c, d, e);
    RefinedTables(c, d, code);
    ApprovedTraces(c, code, r, at);
    InvWhole(d);
  }

  lemma MayApprove(c: Core, code: Code, r: Approval, at: int)
    requires DevicesTraced(c) && ActivationsTraced(c) && CanApprove(c, code, r, at)
    ensures May(c.log, ApprovalGiven(code, at, r.requestID, r.version, r.signature))
  {
    hide OwnerIn, BeginOf, ActivatedIn, ApprovedIn, StatusIn;
    assert ActivationTraced(c, code);
  }

  lemma ApprovedTraces(c: Core, code: Code, r: Approval, at: int)
    requires ActivationsTraced(c) && code in c.activations
    ensures ActivationsTraced(Approve(c, code, r, at))
  {
    hide BeginOf, ApprovedIn, ActivatedIn;
    var d := Approve(c, code, r, at);
    AfterActivations(c.log, ApprovalGiven(code, at, r.requestID, r.version, r.signature));
    forall other | other in d.activations
      ensures ActivationTraced(d, other)
    {
      assert ActivationTraced(c, other);
    }
  }

  lemma ActivateKeeps(c: Core, code: Code, now: int)
    requires Inv(c) && c.fabric != "" && code in c.activations && c.activations[code].status == APPROVED && now < c.activations[code].expiresAt
    ensures Inv(Activate(c, code, now))
  {
    hide Inv, Tables, Histories, Lawful, May, OwnerReplayOK, BucketsOK, CountersOK, DevicesTraced, ActivationsTraced, Drop, PendingNotActive;
    var a := c.activations[code];
    var d, e := Activate(c, code, now), Activated(code, a.device, a.key, now);
    InvParts(c);
    DropKeeps(c, code);
    var dropped := Drop(c, code);
    InvParts(dropped);
    DropFrame(c, code);
    NonePendingIsActive(c);
    MayActivate(c, code, now);
    LawfulExtends(c.log, e);
    ReplayUntouched(dropped, d, e);
    ActivatedTables(c, code, now);
    ActivatedTraces(c, code, now);
    InvWhole(d);
  }

  lemma DropFrame(c: Core, code: Code)
    ensures Drop(c, code) == c.(activations := Drop(c, code).activations, userCodes := Drop(c, code).userCodes)
    ensures Drop(c, code).activations == c.activations - {code}
  {
  }

  lemma MayActivate(c: Core, code: Code, now: int)
    requires PendingNotActive(c) && DevicesTraced(c) && ActivationsTraced(c) && code in c.activations
    requires c.activations[code].status == APPROVED && now < c.activations[code].expiresAt
    ensures May(c.log, Activated(code, c.activations[code].device, c.activations[code].key, now))
  {
    hide OwnerIn, BeginOf, ActivatedIn, ApprovedIn, StatusIn;
    assert ActivationTraced(c, code);
  }

  lemma NonePendingIsActive(c: Core)
    requires Tables(c)
    ensures PendingNotActive(c)
  {
  }

  lemma ActivatedTables(c: Core, code: Code, now: int)
    requires Tables(c) && Tables(Drop(c, code)) && c.fabric != "" && code in c.activations
    ensures Tables(Activate(c, code, now))
  {
    hide BindingOK, ActivationOK, CodesLinked, OneEach, PendingNotActive, DeviceOK, ValidKey, DeviceID, ValidIdentifier, Drop;
    var a, dropped, d := c.activations[code], Drop(c, code), Activate(c, code, now);
    DropFrame(c, code);
    assert ActivationOK(a, code);
    ActivatedDevice(a, code);
    SameKeyAsBefore(c, a, code);
    ActivatedBindings(c, d, a);
    LinksOnly(dropped, d);
    ActivatedAlone(c, dropped, d, code);
  }

  lemma ActivatedDevice(a: Activation, code: Code)
    requires ActivationOK(a, code)
    ensures DeviceOK(DeviceRecord(a.device, a.name, a.key, ACTIVE), a.device)
  {
  }

  lemma SameKeyAsBefore(c: Core, a: Activation, code: Code)
    requires DevicesOK(c) && ActivationOK(a, code)
    ensures a.device in c.devices ==> c.devices[a.device].key == a.key
  {
    if a.device in c.devices {
      assert DeviceOK(c.devices[a.device], a.device);
      DeviceIDInjective(a.key, c.devices[a.device].key);
    }
  }

  lemma ActivatedBindings(c: Core, d: Core, a: Activation)
    requires BindingsOK(c) && d.bindings == c.bindings && d.fabric == c.fabric
    requires d.devices == c.devices[a.device := DeviceRecord(a.device, a.name, a.key, ACTIVE)]
    requires a.device in c.devices ==> c.devices[a.device].key == a.key
    ensures BindingsOK(d)
  {
    hide ShellBinding.Verify;
    forall k | k in d.bindings
      ensures BindingOK(d, k)
    {
      assert BindingOK(c, k);
    }
  }

  lemma ActivatedAlone(c: Core, dropped: Core, d: Core, code: Code)
    requires OneEach(c) && PendingNotActive(c) && code in c.activations
    requires dropped.activations == c.activations - {code} && d.activations == dropped.activations
    requires d.devices.Keys == c.devices.Keys + {c.activations[code].device}
    requires forall id | id in c.devices && id != c.activations[code].device :: d.devices[id] == c.devices[id]
    ensures OneEach(d) && PendingNotActive(d)
  {
  }

  lemma LinksOnly(c: Core, d: Core)
    requires CodesLinked(c) && d.activations == c.activations && d.userCodes == c.userCodes
    ensures CodesLinked(d)
  {
  }

  lemma ActivatedTraces(c: Core, code: Code, now: int)
    requires CountersOK(c) && DevicesTraced(c) && ActivationsTraced(c) && c.fabric != "" && code in c.activations
    ensures CountersOK(Activate(c, code, now)) && DevicesTraced(Activate(c, code, now)) && ActivationsTraced(Activate(c, code, now))
  {
    hide OwnerIn, StatusIn, BeginOf, ApprovedIn, ActivatedIn, LastWindow, AttemptsSince, DirectoryChanges, Revocations;
    var a, d := c.activations[code], Activate(c, code, now);
    var e := Activated(code, a.device, a.key, now);
    AfterCounters(c.log, e);
    AfterDevices(c.log, e);
    AfterActivations(c.log, e);
    forall other | other in d.activations
      ensures ActivationTraced(d, other)
    {
      assert ActivationTraced(c, other);
    }
  }

  // ---- the rate limit -----------------------------------------------------------------------------

  lemma CheckRateKeeps(c: Core, now: int)
    requires Inv(c) && c.fabric != "" && now > 0
    ensures Inv(CheckRate(c, now))
    ensures CheckRate(c, now).window != 0 && now - CheckRate(c, now).window < MINUTE
  {
    hide Inv;
    if WindowOver(c, now) {
      OpenWindowKeeps(c, now);
    }
  }

  lemma OpenWindowKeeps(c: Core, now: int)
    requires Inv(c) && c.fabric != "" && now > 0 && WindowOver(c, now)
    ensures Inv(OpenWindow(c, now))
  {
    hide Inv, Tables, Histories, Lawful, May, OwnerReplayOK, BucketsOK, CountersOK, DevicesTraced, ActivationsTraced, WindowOver;
    var d, e := OpenWindow(c, now), WindowOpened(now);
    InvParts(c);
    MayOpenWindow(c, now);
    LawfulExtends(c.log, e);
    SameTables(c, d);
    ReplayUntouched(c, d, e);
    WindowCounters(c, now);
    DevicesUntouched(c, d, e);
    ActivationsUntouched(c, d, e);
    InvWhole(d);
  }

  lemma MayOpenWindow(c: Core, now: int)
    requires CountersOK(c) && now > 0 && WindowOver(c, now)
    ensures May(c.log, WindowOpened(now))
  {
  }

  lemma WindowCounters(c: Core, now: int)
    requires CountersOK(c)
    ensures CountersOK(OpenWindow(c, now))
  {
    hide LastWindow, AttemptsSince, DirectoryChanges, Revocations;
    AfterCounters(c.log, WindowOpened(now));
  }

  lemma CountWrongCodeKeeps(c: Core, now: int)
    requires Inv(c) && c.fabric != "" && c.window != 0 && now - c.window < MINUTE && c.attempts < MAX_CODE_ATTEMPTS
    ensures Inv(CountWrongCode(c, now))
  {
    hide Inv, Tables, Histories, Lawful, May, OwnerReplayOK, BucketsOK, CountersOK, DevicesTraced, ActivationsTraced;
    var d, e := CountWrongCode(c, now), WrongCode(now);
    InvParts(c);
    MayCount(c, now);
    LawfulExtends(c.log, e);
    SameTables(c, d);
    ReplayUntouched(c, d, e);
    AttemptCounters(c, now);
    DevicesUntouched(c, d, e);
    ActivationsUntouched(c, d, e);
    InvWhole(d);
  }

  lemma MayCount(c: Core, now: int)
    requires CountersOK(c) && c.window != 0 && now - c.window < MINUTE && c.attempts < MAX_CODE_ATTEMPTS
    ensures May(c.log, WrongCode(now))
  {
  }

  lemma AttemptCounters(c: Core, now: int)
    requires CountersOK(c)
    ensures CountersOK(CountWrongCode(c, now))
  {
    hide LastWindow, AttemptsSince, DirectoryChanges, Revocations;
    AfterCounters(c.log, WrongCode(now));
  }

  // ---- revocation and Shell bindings ------------------------------------------------------------------

  /** What must hold for a Device to be revoked. */
  predicate CanRevoke(c: Core, device: string, signature: Signature<Message>) {
    && c.fabric != "" && device in c.devices && c.devices[device].status == ACTIVE && device != c.owner
    && signature.SignedBy? && signature.key == c.ownerKey
    && signature.message.RevokeMessage? && signature.message.owner == c.owner && signature.message.device == device
  }

  lemma RevokeKeeps(c: Core, device: string, signature: Signature<Message>)
    requires Inv(c) && CanRevoke(c, device, signature)
    ensures Inv(Revoke(c, device, signature))
  {
    hide Inv, Tables, Histories, Lawful, May, OwnerReplayOK, BucketsOK, CountersOK, DevicesTraced, ActivationsTraced;
    var d, e := Revoke(c, device, signature), RevokedBy(device, signature);
    InvParts(c);
    MayRevoke(c, device, signature);
    LawfulExtends(c.log, e);
    ReplayUntouched(c, d, e);
    ActivationsUntouched(c, d, e);
    RevokedTables(c, device, signature);
    RevokedTraces(c, device, signature);
    InvWhole(d);
  }

  lemma MayRevoke(c: Core, device: string, signature: Signature<Message>)
    requires DevicesTraced(c) && CanRevoke(c, device, signature)
    ensures May(c.log, RevokedBy(device, signature))
  {
    hide StatusIn, OwnerIn;
  }

  lemma RevokedTables(c: Core, device: string, signature: Signature<Message>)
    requires Tables(c) && CanRevoke(c, device, signature)
    ensures Tables(Revoke(c, device, signature))
  {
    hide BindingOK, ActivationOK, DeviceOK, CodesLinked, OneEach, PendingNotActive, ValidKey, DeviceID, ValidIdentifier;
    var d := Revoke(c, device, signature);
    RevokedDevice(c.devices[device], device);
    RevokedShape(c, d, device);
    RevokedBindings(c, device, signature);
  }

  lemma RevokedDevice(r: DeviceRecord, id: string)
    requires DeviceOK(r, id)
    ensures DeviceOK(r.(status := REVOKED), id)
  {
  }

  lemma RevokedShape(c: Core, d: Core, device: string)
    requires CodesLinked(c) && OneEach(c) && PendingNotActive(c) && device in c.devices
    requires d.activations == c.activations && d.userCodes == c.userCodes && d.devices == c.devices[device := c.devices[device].(status := REVOKED)]
    ensures CodesLinked(d) && OneEach(d) && PendingNotActive(d)
  {
  }

  lemma RevokedBindings(c: Core, device: string, signature: Signature<Message>)
    requires BindingsOK(c) && device in c.devices
    ensures BindingsOK(Revoke(c, device, signature))
  {
    hide ShellBinding.Verify;
    var d := Revoke(c, device, signature);
    assert d.bindings.Keys <= c.bindings.Keys;
    SubsetIsSmaller(d.bindings.Keys, c.bindings.Keys);
    forall k | k in d.bindings
      ensures BindingOK(d, k)
    {
      assert BindingOK(c, k);
    }
  }

  lemma RevokedTraces(c: Core, device: string, signature: Signature<Message>)
    requires CountersOK(c) && DevicesTraced(c) && c.fabric != "" && device in c.devices
    ensures CountersOK(Revoke(c, device, signature)) && DevicesTraced(Revoke(c, device, signature))
  {
    hide OwnerIn, StatusIn, LastWindow, AttemptsSince, DirectoryChanges, Revocations;
    AfterCounters(c.log, RevokedBy(device, signature));
    AfterDevices(c.log, RevokedBy(device, signature));
  }

  /** What must hold for a binding to be published. */
  predicate CanBind(c: Core, b: Binding) {
    && c.fabric != "" && b.device in c.devices && c.devices[b.device].status == ACTIVE
    && ShellBinding.Verify(b.device, c.devices[b.device].key, b.capability, c.fabric, b)
    && ((b.device, b.capability) in c.bindings || |c.bindings| < MAX_PUBLISHED_BINDINGS)
  }

  lemma BindKeeps(c: Core, b: Binding)
    requires Inv(c) && CanBind(c, b)
    ensures Inv(Bind(c, b))
  {
    hide Inv, Tables, Histories, Lawful, May, OwnerReplayOK, BucketsOK, CountersOK, DevicesTraced, ActivationsTraced;
    var d, e := Bind(c, b), BindingChanged(b.device, b.capability);
    InvParts(c);
    MayBind(c, b);
    LawfulExtends(c.log, e);
    ReplayUntouched(c, d, e);
    ActivationsUntouched(c, d, e);
    DevicesUntouched(c, d, e);
    BoundTables(c, b);
    BoundCounters(c, b);
    InvWhole(d);
  }

  lemma MayBind(c: Core, b: Binding)
    requires DevicesTraced(c) && CanBind(c, b)
    ensures May(c.log, BindingChanged(b.device, b.capability))
  {
    hide StatusIn, OwnerIn, ShellBinding.Verify;
  }

  lemma BoundTables(c: Core, b: Binding)
    requires Tables(c) && CanBind(c, b)
    ensures Tables(Bind(c, b))
  {
    hide ActivationsOK, DevicesOK, BindingsOK, ValidKey, DeviceID, ValidIdentifier, ShellBinding.Verify;
    SameActivations(c, Bind(c, b));
    BoundBindings(c, b);
  }

  lemma BoundBindings(c: Core, b: Binding)
    requires BindingsOK(c) && CanBind(c, b)
    ensures BindingsOK(Bind(c, b))
  {
    hide BindingOK, CanBind;
    var d := Bind(c, b);
    assert d.bindings.Keys == c.bindings.Keys + {(b.device, b.capability)};
    BoundOne(c, b);
    forall k | k in c.bindings && k != (b.device, b.capability)
      ensures BindingOK(d, k)
    {
      OtherBinding(c, b, k);
    }
  }

  lemma BoundOne(c: Core, b: Binding)
    requires CanBind(c, b)
    ensures BindingOK(Bind(c, b), (b.device, b.capability))
    ensures (b.device, b.capability) in c.bindings || |c.bindings| < MAX_PUBLISHED_BINDINGS
  {
    hide ShellBinding.Verify;
  }

  lemma OtherBinding(c: Core, b: Binding, k: (string, string))
    requires k in c.bindings && k != (b.device, b.capability) && BindingOK(c, k)
    ensures BindingOK(Bind(c, b), k)
  {
    hide ShellBinding.Verify;
  }

  lemma SameActivations(c: Core, d: Core)
    requires d.activations == c.activations && d.userCodes == c.userCodes && d.devices == c.devices
    ensures ActivationsOK(d) == ActivationsOK(c) && DevicesOK(d) == DevicesOK(c)
  {
    hide ActivationOK, DeviceOK;
    assert CodesLinked(d) == CodesLinked(c) && OneEach(d) == OneEach(c) && PendingNotActive(d) == PendingNotActive(c);
  }

  lemma BoundCounters(c: Core, b: Binding)
    requires CountersOK(c) && c.fabric != ""
    ensures CountersOK(Bind(c, b))
  {
    hide LastWindow, AttemptsSince, DirectoryChanges, Revocations;
    AfterCounters(c.log, BindingChanged(b.device, b.capability));
  }

  // ---- every plan keeps the invariant ------------------------------------------------------------------

  ghost predicate Keeps(plan: Plan) {
    Inv(plan.final) && forall k | 0 <= k < |plan.saves| :: Inv(plan.saves[k])
  }

  lemma KeepsAfter(c: Core, rest: Plan)
    requires Inv(c) && Keeps(rest)
    ensures Keeps(After(c, rest))
  {
    hide Inv;
    var plan := After(c, rest);
    forall k | 0 <= k < |plan.saves|
      ensures Inv(plan.saves[k])
    {
      assert k > 0 ==> plan.saves[k] == rest.saves[k - 1];
    }
  }

  lemma InitializePlanKeeps(c: Core, r: Initialization)
    requires Inv(c)
    ensures Keeps(InitializePlan(c, r))
  {
    hide Inv, InitializationFault, InstallOwner;
    if InitializationFault(c, r).None? {
      Installable(c, r);
      UninitializedIsEmpty(c);
      InstallOwnerKeeps(r.fabric, r.owner, r.key);
    }
  }

  lemma Installable(c: Core, r: Initialization)
    requires InitializationFault(c, r).None?
    ensures c.fabric == "" && ValidIdentifier(r.fabric, LONGEST_ENROLLMENT_IDENTIFIER) && ValidKey(r.key) && r.owner == DeviceID(r.key)
  {
  }

  lemma UninitializedIsEmpty(c: Core)
    requires Inv(c) && c.fabric == ""
    ensures c == Empty()
  {
  }

  /** `tokens` are fresh: this device code was never issued, this user code is not in use. */
  predicate Fresh(c: Core, tokens: Option<(Code, Code)>) {
    tokens.Some? ==> BeginOf(c.log, tokens.value.0).None? && tokens.value.1 !in c.userCodes
  }

  lemma BeginPlanKeeps(c: Core, r: Authorization, now: int, stamp: int, tokens: Option<(Code, Code)>)
    requires Inv(c) && now > 0 && Fresh(c, tokens)
    ensures Keeps(BeginPlan(c, r, now, stamp, tokens))
  {
    hide Inv, Prune, Prunes, AdmitPlan, AuthorizationFault, Fresh;
    if AuthorizationFault(c, r).None? {
      Authorized(c, r);
      PruneFrame(c, now);
      if Prunes(c, now) {
        PruneKeeps(c, now);
        FreshAfterPrune(c, now, tokens);
        AdmitPlanKeeps(Prune(c, now), r, now, stamp, tokens);
        KeepsAfter(Prune(c, now), AdmitPlan(Prune(c, now), r, now, stamp, tokens));
      } else {
        AdmitPlanKeeps(c, r, now, stamp, tokens);
      }
    }
  }

  lemma FreshAfterPrune(c: Core, now: int, tokens: Option<(Code, Code)>)
    requires Fresh(c, tokens)
    ensures Fresh(Prune(c, now), tokens)
  {
    hide Prune;
    PruneFrame(c, now);
  }

  /** A request that passed the checks which do not depend on the bounded tables. */
  predicate Admissible(c: Core, r: Authorization) {
    && c.fabric != "" && ValidRequestID(r.requestID) && ValidKey(r.key) && r.device == DeviceID(r.key) && r.device != ""
    && SignedBegin(r.device, r.key, r.signature)
    && (r.device in c.devices ==> c.devices[r.device].status != ACTIVE)
  }

  lemma AdmitPlanKeeps(c: Core, r: Authorization, now: int, stamp: int, tokens: Option<(Code, Code)>)
    requires Inv(c) && now > 0 && Fresh(c, tokens) && Admissible(c, r)
    ensures Keeps(AdmitPlan(c, r, now, stamp, tokens))
  {
    hide Inv, AcceptDeviceID, Start, CapacityFault, Fresh, CanStart;
    if CapacityFault(c, r).None? {
      Capable(c, r);
      AcceptDeviceIDKeeps(c, r.device, r.requestID, stamp);
      var recorded := AcceptDeviceID(c, r.device, r.requestID, stamp);
      if tokens.Some? {
        StillFresh(c, recorded, r, now, stamp, tokens);
        StartKeeps(recorded, tokens.value.0, tokens.value.1, r, now);
      }
      KeepsAfter(recorded, StartPlan(recorded, r, now, tokens));
    }
  }

  lemma Authorized(c: Core, r: Authorization)
    requires AuthorizationFault(c, r).None?
    ensures Admissible(c, r)
  {
  }

  lemma Capable(c: Core, r: Authorization)
    requires CapacityFault(c, r).None?
    ensures r.requestID !in Bucket(c, r.device) && !HasActivation(c, r.device) && |c.activations| < MAX_PENDING_ACTIVATIONS
  {
  }

  lemma PruneFrame(c: Core, now: int)
    ensures Prune(c, now).fabric == c.fabric && Prune(c, now).devices == c.devices && Prune(c, now).userCodes.Keys <= c.userCodes.Keys
    ensures forall code: Code :: BeginOf(Prune(c, now).log, code) == BeginOf(c.log, code)
  {
    hide BeginOf;
    var live := DropExpired(c, now);
    AfterActivations(c.log, BucketsDropped(StaleBuckets(live, now)));
  }

  lemma StillFresh(c: Core, recorded: Core, r: Authorization, now: int, stamp: int, tokens: Option<(Code, Code)>)
    requires Fresh(c, tokens) && tokens.Some? && now > 0 && Admissible(c, r)
    requires !HasActivation(c, r.device) && |c.activations| < MAX_PENDING_ACTIVATIONS
    requires recorded == AcceptDeviceID(c, r.device, r.requestID, stamp)
    ensures CanStart(recorded, tokens.value.0, tokens.value.1, r, now)
  {
    hide BeginOf, ValidKey, DeviceID, ValidRequestID;
    AfterActivations(c.log, DeviceAccepted(r.device, r.requestID));
  }

  lemma OwnerRequestAccepted(c: Core, schema: string, version: ClientVersion, owner: string, requestID: string, message: Message,
                             signature: Signature<Message>)
    requires OwnerRequestFault(c, schema, version, owner, requestID, message, signature).None?
    ensures c.fabric != "" && owner == c.owner && ValidRequestID(requestID) && Verifies(c.ownerKey, message, signature)
    ensures requestID !in c.ownerIDs
  {
  }

  lemma ApprovePlanKeeps(c: Core, r: Approval, now: int, later: int)
    requires Inv(c) && now > 0
    ensures Keeps(ApprovePlan(c, r, now, later))
  {
    hide Inv, AcceptOwnerID, CheckRate, SettlePlan, OwnerRequestFault;
    if OwnerRequestFault(c, r.schema, r.version, r.owner, r.requestID, ApprovalOf(r), r.signature).None? {
      OwnerRequestAccepted(c, r.schema, r.version, r.owner, r.requestID, ApprovalOf(r), r.signature);
      AcceptOwnerIDKeeps(c, r.requestID);
      AcceptFrame(c, r.requestID, now);
      CheckRateKeeps(AcceptOwnerID(c, r.requestID), now);
      var checked := CheckRate(AcceptOwnerID(c, r.requestID), now);
      SettlePlanKeeps(checked, r, now, later);
      KeepsAfter(checked, SettlePlan(checked, r, now, later));
    }
  }

  lemma SettlePlanKeeps(c: Core, r: Approval, now: int, later: int)
    requires Inv(c) && c.fabric != "" && c.window != 0 && now - c.window < MINUTE && r.owner == c.owner
    requires Verifies(c.ownerKey, ApprovalOf(r), r.signature)
    ensures Keeps(SettlePlan(c, r, now, later))
  {
    hide Inv, CountWrongCode, Drop, Approve;
    if c.attempts < MAX_CODE_ATTEMPTS {
      if r.userCode !in c.userCodes {
        CountWrongCodeKeeps(c, now);
      } else {
        var code := c.userCodes[r.userCode];
        LinkedCode(c, r.userCode);
        if later >= c.activations[code].expiresAt {
          DropKeeps(c, code);
        } else if c.activations[code].status == PENDING {
          ApproveKeeps(c, code, r, later);
        }
      }
    }
  }

  lemma LinkedCode(c: Core, userCode: Code)
    requires Inv(c) && userCode in c.userCodes
    ensures c.userCodes[userCode] in c.activations && c.activations[c.userCodes[userCode]].userCode == userCode
  {
  }

  /** The fields that recording an Owner request and checking the rate leave alone. */
  predicate SameRegistry(c: Core, d: Core) {
    && d.fabric == c.fabric && d.owner == c.owner && d.ownerKey == c.ownerKey && d.devices == c.devices
    && d.activations == c.activations && d.userCodes == c.userCodes
  }

  lemma AcceptFrame(c: Core, id: string, now: int)
    ensures SameRegistry(c, AcceptOwnerID(c, id)) && SameRegistry(c, CheckRate(AcceptOwnerID(c, id), now))
  {
    hide Queued, Remembered;
    RateFrame(AcceptOwnerID(c, id), now);
  }

  lemma RateFrame(c: Core, now: int)
    ensures SameRegistry(c, CheckRate(c, now))
  {
  }

  lemma PollPlanKeeps(c: Core, r: Poll, now: int)
    requires Inv(c)
    ensures Keeps(PollPlan(c, r, now))
  {
    hide Inv, Drop, Polled, Activate, VersionFault;
    if PollFault(c, r).None? {
      var a := c.activations[r.code];
      if now >= a.expiresAt {
        DropKeeps(c, r.code);
      } else {
        PolledKeeps(c, r.code, now);
        PolledFrame(c, r.code, now);
        if !TooSoon(a, now) && a.status == APPROVED {
          ActivateKeeps(Polled(c, r.code, now), r.code, now);
        }
      }
    }
  }

  lemma PolledFrame(c: Core, code: Code, now: int)
    requires code in c.activations
    ensures var d := Polled(c, code, now);
            d.fabric == c.fabric && code in d.activations && d.activations[code].status == c.activations[code].status
            && d.activations[code].expiresAt == c.activations[code].expiresAt
  {
  }

  lemma RevokePlanKeeps(c: Core, r: Revocation)
    requires Inv(c)
    ensures Keeps(RevokePlan(c, r))
  {
    hide Inv, AcceptOwnerID, RevokeRecorded, OwnerRequestFault;
    if OwnerRequestFault(c, r.schema, r.version, r.owner, r.requestID, RevocationOf(r), r.signature).None? {
      OwnerRequestAccepted(c, r.schema, r.version, r.owner, r.requestID, RevocationOf(r), r.signature);
      AcceptOwnerIDKeeps(c, r.requestID);
      AcceptFrame(c, r.requestID, 1);
      var recorded := AcceptOwnerID(c, r.requestID);
      RevokeRecordedKeeps(recorded, r);
      KeepsAfter(recorded, RevokeRecorded(recorded, r));
    }
  }

  lemma RevokeRecordedKeeps(c: Core, r: Revocation)
    requires Inv(c) && c.fabric != "" && r.owner == c.owner && Verifies(c.ownerKey, RevocationOf(r), r.signature)
    ensures Keeps(RevokeRecorded(c, r))
  {
    hide Inv, Revoke;
    if r.device != c.owner && r.device in c.devices && c.devices[r.device].status != REVOKED {
      NotRevokedIsActive(c, r.device);
      RevokeKeeps(c, r.device, r.signature);
    }
  }

  lemma NotRevokedIsActive(c: Core, device: string)
    requires Inv(c) && device in c.devices && c.devices[device].status != REVOKED
    ensures c.devices[device].status == ACTIVE
  {
    assert DeviceOK(c.devices[device], device);
  }

  lemma DeviceIDIsNotEmpty(c: Core, device: string)
    requires Inv(c) && device in c.devices
    ensures device != ""
  {
    assert DeviceOK(c.devices[device], device);
  }

  lemma SyncPlanKeeps(c: Core, r: Sync, stamp: int)
    requires Inv(c)
    ensures Keeps(SyncPlan(c, r, stamp))
  {
    hide Inv, AcceptDeviceID, OpenBucket, VersionFault, Verifies, ValidRequestID;
    if SyncFault(c, r).None? {
      OpenBucketKeeps(c, r.device);
      OpenFrame(c, r.device);
      DeviceIDIsNotEmpty(c, r.device);
      var ready := OpenBucket(c, r.device);
      if r.requestID !in Bucket(ready, r.device) {
        AcceptDeviceIDKeeps(ready, r.device, r.requestID, stamp);
      }
    }
  }

  lemma OpenFrame(c: Core, device: string)
    ensures OpenBucket(c, device) == c.(deviceIDs := OpenBucket(c, device).deviceIDs)
    ensures forall d: string :: Bucket(OpenBucket(c, device), d) == Bucket(c, d)
  {
  }

  lemma PublishPlanKeeps(c: Core, r: Publication, stamp: int)
    requires Inv(c)
    ensures Keeps(PublishPlan(c, r, stamp))
  {
    hide Inv, AcceptDeviceID, OpenBucket, PublicationFault, BindingFault, Bind, CanBind;
    if PublicationFault(c, r).None? {
      Publishable(c, r);
      OpenBucketKeeps(c, r.device);
      OpenFrame(c, r.device);
      DeviceIDIsNotEmpty(c, r.device);
      var ready := OpenBucket(c, r.device);
      if BindingFault(ready, r).None? {
        Bindable(ready, r, stamp);
        AcceptDeviceIDKeeps(ready, r.device, r.requestID, stamp);
        var recorded := AcceptDeviceID(ready, r.device, r.requestID, stamp);
        if Changes(ready, r.binding) {
          BindKeeps(recorded, r.binding);
        }
      }
    }
  }

  lemma Publishable(c: Core, r: Publication)
    requires PublicationFault(c, r).None?
    ensures c.fabric != "" && ValidRequestID(r.requestID) && r.device in c.devices && c.devices[r.device].status == ACTIVE
  {
  }

  lemma Bindable(c: Core, r: Publication, stamp: int)
    requires c.fabric != "" && r.device in c.devices && c.devices[r.device].status == ACTIVE && BindingFault(c, r).None?
    ensures r.requestID !in Bucket(c, r.device)
    ensures CanBind(AcceptDeviceID(c, r.device, r.requestID, stamp), r.binding)
  {
    hide ShellBinding.Verify;
  }

  lemma ListPlanKeeps(c: Core, r: Listing)
    requires Inv(c)
    ensures Keeps(ListPlan(c, r))
  {
    hide Inv, AcceptOwnerID, OwnerRequestFault;
    if OwnerRequestFault(c, r.schema, r.version, r.owner, r.requestID, ListingOf(r), r.signature).None? {
      OwnerRequestAccepted(c, r.schema, r.version, r.owner, r.requestID, ListingOf(r), r.signature);
      AcceptOwnerIDKeeps(c, r.requestID);
    }
  }
}
