/** How many replay buckets a run can fill: all Devices but the Owner together stay within
    the limit of a restart, and the Owner's own bucket may exceed it by one. */
module EnrollmentCapacity {
  import opened Common
  import opened Identity
  import opened Snapshots
  import opened Enrollment
  import opened EnrollmentHistory
  import opened EnrollmentSafety
  import opened EnrollmentPersistence
  import opened EnrollmentManager
  import opened EnrollmentRuns

  /** Buckets of Devices other than the Owner. */
  function Others(c: Core): set<string> {
    c.deviceOrder.Keys - {c.owner}
  }

  /** Who has a bucket, and how many have one. */
  predicate Bucketed(c: Core) {
    && (forall d | d in c.devices && d != c.owner :: d in c.deviceOrder)
    && (forall code | code in c.activations :: c.activations[code].device in c.deviceOrder)
    && (forall d | d in c.deviceIDs && d != c.owner :: d in c.deviceOrder)
    && c.deviceOrder.Keys <= c.deviceIDs.Keys
    && |Others(c)| <= MAX_DEVICE_REPLAY_BUCKETS
  }

  // ---- every change keeps it ---------------------------------------------------------------

  /** No new Devices, no activations of others, the same buckets. */
  predicate Narrower(c: Core, d: Core) {
    && d.owner == c.owner && d.deviceIDs == c.deviceIDs && d.deviceOrder == c.deviceOrder && d.devices.Keys <= c.devices.Keys
    && forall code | code in d.activations :: code in c.activations && d.activations[code].device == c.activations[code].device
  }

  lemma NarrowerKeeps(c: Core, d: Core)
    requires Bucketed(c) && Narrower(c, d)
    ensures Bucketed(d)
  {
  }

  /** What recording a request ID does to the keys of the buckets. */
  lemma AcceptKeys(c: Core, device: string, id: string, now: int)
    ensures var d := AcceptDeviceID(c, device, id, now);
            && d.owner == c.owner && d.devices == c.devices && d.activations == c.activations
            && d.deviceIDs.Keys == c.deviceIDs.Keys + {device} && d.deviceOrder.Keys == c.deviceOrder.Keys + {device}
            && d.deviceSince == (if device in c.deviceIDs then c.deviceSince else c.deviceSince[device := now])
            && d.fabric == c.fabric && d.ownerKey == c.ownerKey
  {
    hide Remembered, Queued;
  }

  /** Buckets come and go, all else stays. */
  lemma BucketsChange(c: Core, d: Core, added: set<string>, gone: set<string>)
    requires Bucketed(c) && d.owner == c.owner && d.devices == c.devices && d.activations == c.activations
    requires d.deviceIDs.Keys == c.deviceIDs.Keys + added - gone && d.deviceOrder.Keys == c.deviceOrder.Keys + added - gone
    requires forall x | x in gone :: x !in c.devices && !HasActivation(c, x)
    requires |Others(d)| <= MAX_DEVICE_REPLAY_BUCKETS
    ensures Bucketed(d)
  {
    hide Others;
  }

  lemma AcceptKeeps(c: Core, device: string, id: string, now: int)
    requires Bucketed(c) && (device in c.deviceIDs || device == c.owner || |c.deviceIDs| < MAX_DEVICE_REPLAY_BUCKETS)
    ensures Bucketed(AcceptDeviceID(c, device, id, now)) && device in AcceptDeviceID(c, device, id, now).deviceOrder
  {
    hide AcceptDeviceID, Bucketed;
    var d := AcceptDeviceID(c, device, id, now);
    AcceptKeys(c, device, id, now);
    OneMoreOther(c, device);
    assert Others(d) == c.deviceOrder.Keys + {device} - {c.owner};
    assert d.deviceIDs.Keys == c.deviceIDs.Keys + {device} - {} && d.deviceOrder.Keys == c.deviceOrder.Keys + {device} - {};
    BucketsChange(c, d, {device}, {});
  }

  lemma OneMoreOther(c: Core, device: string)
    requires Bucketed(c) && (device in c.deviceIDs || device == c.owner || |c.deviceIDs| < MAX_DEVICE_REPLAY_BUCKETS)
    ensures |c.deviceOrder.Keys + {device} - {c.owner}| <= MAX_DEVICE_REPLAY_BUCKETS
  {
    WithOneMore(c.deviceOrder.Keys, c.deviceIDs.Keys, c.owner, device);
  }

  lemma WithOneMore(buckets: set<string>, ids: set<string>, owner: string, device: string)
    requires buckets <= ids && |buckets - {owner}| <= MAX_DEVICE_REPLAY_BUCKETS
    requires device in buckets || device == owner || |ids| < MAX_DEVICE_REPLAY_BUCKETS
    ensures |buckets + {device} - {owner}| <= MAX_DEVICE_REPLAY_BUCKETS
  {
    if device == owner || device in buckets {
      assert buckets + {device} - {owner} == buckets - {owner};
    } else {
      assert buckets + {device} - {owner} == buckets - {owner} + {device};
      SubsetIsSmaller(buckets - {owner}, ids);
    }
  }

  lemma OpenKeeps(c: Core, device: string)
    requires Bucketed(c) && device in c.devices
    ensures Bucketed(OpenBucket(c, device))
    ensures device in OpenBucket(c, device).deviceIDs
  {
  }

  lemma PruneHolds(c: Core, now: int)
    requires Bucketed(c)
    ensures Bucketed(Prune(c, now))
  {
    hide Expired, ExpiredUserCodes, Others;
    var live := DropExpired(c, now);
    NarrowerKeeps(c, live);
    DropHolds(live, StaleBuckets(live, now));
  }

  /** Nobody registered, and nobody with an activation, loses a bucket. */
  lemma DropHolds(c: Core, gone: set<string>)
    requires Bucketed(c) && forall d | d in gone :: d !in c.devices && !HasActivation(c, d)
    ensures Bucketed(DropBuckets(c, gone))
  {
    hide Bucketed, DropBuckets, HasActivation;
    var d := DropBuckets(c, gone);
    DropKeys(c, gone);
    assert d.deviceIDs.Keys == c.deviceIDs.Keys + {} - gone && d.deviceOrder.Keys == c.deviceOrder.Keys + {} - gone;
    FewerOthers(c, d);
    BucketsChange(c, d, {}, gone);
  }

  lemma DropKeys(c: Core, gone: set<string>)
    ensures var d := DropBuckets(c, gone);
            && d.owner == c.owner && d.devices == c.devices && d.activations == c.activations
            && d.deviceIDs.Keys == c.deviceIDs.Keys - gone && d.deviceOrder.Keys == c.deviceOrder.Keys - gone
  {
  }

  lemma FewerOthers(c: Core, d: Core)
    requires Bucketed(c) && d.owner == c.owner && d.deviceOrder.Keys <= c.deviceOrder.Keys
    ensures |Others(d)| <= MAX_DEVICE_REPLAY_BUCKETS
  {
    SubsetIsSmaller(Others(d), Others(c));
  }

  lemma StartHolds(c: Core, code: Code, userCode: Code, r: Authorization, now: int)
    requires Bucketed(c) && r.device in c.deviceOrder
    ensures Bucketed(Start(c, code, userCode, r, now))
  {
    hide Trim;
  }

  lemma ActivateHolds(c: Core, code: Code, now: int)
    requires Bucketed(c) && code in c.activations
    ensures Bucketed(Activate(c, code, now))
  {
  }

  lemma InstallHolds(fabric: string, owner: string, key: Key)
    ensures Bucketed(InstallOwner(Empty(), fabric, owner, key))
  {
  }

  lemma EmptyHolds()
    ensures Bucketed(Empty())
  {
  }

  // ---- and so does every request -------------------------------------------------------------

  predicate Held(plan: Plan) {
    Bucketed(plan.final) && forall k | 0 <= k < |plan.saves| :: Bucketed(plan.saves[k])
  }

  lemma HeldAlone(c: Core, code: FaultCode, reply: Reply)
    requires Bucketed(c)
    ensures Held(Refuse(c, code)) && Held(SaveAndAnswer(c, reply))
  {
    hide Bucketed;
  }

  lemma HeldAfter(c: Core, rest: Plan)
    requires Bucketed(c) && Held(rest)
    ensures Held(After(c, rest))
  {
    hide Bucketed;
    var plan := After(c, rest);
    assert forall k | 0 < k < |plan.saves| :: plan.saves[k] == rest.saves[k - 1];
  }

  lemma BeginHolds(c: Core, r: Authorization, now: int, stamp: int, tokens: Option<(Code, Code)>)
    requires Bucketed(c)
    ensures Held(BeginPlan(c, r, now, stamp, tokens))
  {
    hide Bucketed, Held, AuthorizationFault, Prune, Prunes, AdmitPlan, Refuse, After;
    if AuthorizationFault(c, r).Some? {
      HeldAlone(c, AuthorizationFault(c, r).value, Fault(InvalidRequestID));
    } else if Prunes(c, now) {
      PruneHolds(c, now);
      AdmitHolds(Prune(c, now), r, now, stamp, tokens);
      HeldAfter(Prune(c, now), AdmitPlan(Prune(c, now), r, now, stamp, tokens));
    } else {
      AdmitHolds(c, r, now, stamp, tokens);
    }
  }

  lemma AdmitHolds(c: Core, r: Authorization, now: int, stamp: int, tokens: Option<(Code, Code)>)
    requires Bucketed(c)
    ensures Held(AdmitPlan(c, r, now, stamp, tokens))
  {
    hide Bucketed, Held, AcceptDeviceID, Start, Refuse, SaveAndAnswer, After, HasActivation, Bucket;
    if CapacityFault(c, r).Some? {
      HeldAlone(c, CapacityFault(c, r).value, Fault(InvalidRequestID));
    } else {
      AcceptKeeps(c, r.device, r.requestID, stamp);
      var recorded := AcceptDeviceID(c, r.device, r.requestID, stamp);
      if tokens.None? {
        HeldAlone(recorded, EntropyUnavailable, Fault(InvalidRequestID));
      } else {
        StartHolds(recorded, tokens.value.0, tokens.value.1, r, now);
        HeldAlone(Start(recorded, tokens.value.0, tokens.value.1, r, now), InvalidRequestID,
                  Codes(tokens.value.0, tokens.value.1, ACTIVATION_TTL / SECOND, POLLING_INTERVAL / SECOND));
      }
      HeldAfter(recorded, StartPlan(recorded, r, now, tokens));
    }
  }

  lemma ApproveHolds(c: Core, r: Approval, now: int, later: int)
    requires Bucketed(c)
    ensures Held(ApprovePlan(c, r, now, later))
  {
    hide Bucketed, Held, OwnerRequestFault, SettlePlan, Refuse, After, CheckRate, AcceptOwnerID;
    var refused := OwnerRequestFault(c, r.schema, r.version, r.owner, r.requestID, ApprovalOf(r), r.signature);
    if refused.Some? {
      HeldAlone(c, refused.value, Fault(InvalidRequestID));
    } else {
      var checked := CheckRate(AcceptOwnerID(c, r.requestID), now);
      CheckedHolds(c, r.requestID, now);
      SettleHolds(checked, r, now, later);
      HeldAfter(checked, SettlePlan(checked, r, now, later));
    }
  }

  lemma CheckedHolds(c: Core, id: string, now: int)
    requires Bucketed(c)
    ensures Bucketed(CheckRate(AcceptOwnerID(c, id), now))
  {
    hide Bucketed, AcceptOwnerID, CheckRate;
    AcceptedHolds(c, id);
    RatedHolds(AcceptOwnerID(c, id), now);
  }

  lemma AcceptedHolds(c: Core, id: string)
    requires Bucketed(c)
    ensures Bucketed(AcceptOwnerID(c, id))
  {
    hide Bucketed, Remembered, Queued;
    NarrowerKeeps(c, AcceptOwnerID(c, id));
  }

  lemma RatedHolds(c: Core, now: int)
    requires Bucketed(c)
    ensures Bucketed(CheckRate(c, now))
  {
    hide Bucketed;
    NarrowerKeeps(c, CheckRate(c, now));
  }

  lemma SettleHolds(c: Core, r: Approval, now: int, later: int)
    requires Bucketed(c)
    ensures Held(SettlePlan(c, r, now, later))
  {
    hide Bucketed, Held, Refuse, SaveAndAnswer;
    var plan := SettlePlan(c, r, now, later);
    HeldAlone(c, UserCodeRateLimited, plan.reply);
    HeldAlone(c, ActivationNotPending, plan.reply);
    NarrowerKeeps(c, CountWrongCode(c, now));
    HeldAlone(CountWrongCode(c, now), InvalidUserCode, Fault(InvalidUserCode));
    if r.userCode in c.userCodes {
      var code := c.userCodes[r.userCode];
      NarrowerKeeps(c, Drop(c, code));
      HeldAlone(Drop(c, code), ActivationExpired, Fault(ActivationExpired));
      if code in c.activations {
        NarrowerKeeps(c, Approve(c, code, r, later));
        HeldAlone(Approve(c, code, r, later), InvalidUserCode, Approved(c.activations[code].device, c.activations[code].name));
      }
    }
  }

  lemma PollHolds(c: Core, r: Poll, now: int)
    requires Bucketed(c)
    ensures Held(PollPlan(c, r, now))
  {
    hide Bucketed, Held, PollFault, Refuse, SaveAndAnswer, Drop, Polled, Activate;
    if PollFault(c, r).Some? {
      HeldAlone(c, PollFault(c, r).value, Fault(InvalidRequestID));
    } else {
      PollKnown(c, r);
      PollStepsHold(c, r.code, now);
      HeldAlone(Drop(c, r.code), ActivationExpired, Fault(ActivationExpired));
      HeldAlone(Polled(c, r.code, now), ActivationDenied, Fault(SlowDown));
      HeldAlone(Polled(c, r.code, now), ActivationDenied, Fault(AuthorizationPending));
      HeldAlone(Activate(Polled(c, r.code, now), r.code, now), ActivationDenied,
                NowActive(c.fabric, c.activations[r.code].device, c.directoryVersion + 1, c.grantVersion));
    }
  }

  lemma PollStepsHold(c: Core, code: Code, now: int)
    requires Bucketed(c) && code in c.activations
    ensures code in Polled(c, code, now).activations
    ensures Bucketed(Drop(c, code)) && Bucketed(Polled(c, code, now)) && Bucketed(Activate(Polled(c, code, now), code, now))
  {
    NarrowerKeeps(c, Drop(c, code));
    NarrowerKeeps(c, Polled(c, code, now));
    ActivateHolds(Polled(c, code, now), code, now);
  }

  lemma RevokeHolds(c: Core, r: Revocation)
    requires Bucketed(c)
    ensures Held(RevokePlan(c, r))
  {
    hide Bucketed, Held, OwnerRequestFault, Refuse, SaveAndAnswer, After, Remembered, Queued;
    var refused := OwnerRequestFault(c, r.schema, r.version, r.owner, r.requestID, RevocationOf(r), r.signature);
    if refused.Some? {
      HeldAlone(c, refused.value, Fault(InvalidRequestID));
    } else {
      var recorded := AcceptOwnerID(c, r.requestID);
      NarrowerKeeps(c, recorded);
      HeldAlone(recorded, OwnerDeviceRequiresRecovery, Fault(InvalidRequestID));
      HeldAlone(recorded, DeviceNotFound, Fault(InvalidRequestID));
      HeldAlone(recorded, DeviceAlreadyRevoked, Fault(InvalidRequestID));
      if r.device in c.devices {
        NarrowerKeeps(recorded, Revoke(recorded, r.device, r.signature));
        HeldAlone(Revoke(recorded, r.device, r.signature), DeviceNotFound,
                  NowRevoked(r.device, recorded.directoryVersion + 1, recorded.grantVersion + 1));
      }
      HeldAfter(recorded, RevokeRecorded(recorded, r));
    }
  }

  lemma SyncHolds(c: Core, r: Sync, stamp: int)
    requires Bucketed(c)
    ensures Held(SyncPlan(c, r, stamp))
  {
    hide Bucketed, Held, SyncFault, OpenBucket, AcceptDeviceID, Refuse, SaveAndAnswer;
    if SyncFault(c, r).Some? {
      HeldAlone(c, SyncFault(c, r).value, Fault(InvalidRequestID));
    } else {
      Syncable(c, r);
      OpenKeeps(c, r.device);
      var ready := OpenBucket(c, r.device);
      HeldAlone(ready, RequestReplayed, Fault(InvalidRequestID));
      AcceptKeeps(ready, r.device, r.requestID, stamp);
      HeldAlone(AcceptDeviceID(ready, r.device, r.requestID, stamp), RequestReplayed,
                Versions(c.fabric, r.device, c.devices[r.device].status, c.directoryVersion, c.grantVersion));
    }
  }

  lemma PublishHolds(c: Core, r: Publication, stamp: int)
    requires Bucketed(c)
    ensures Held(PublishPlan(c, r, stamp))
  {
    hide Bucketed, Held, PublicationFault, BindingFault, OpenBucket, AcceptDeviceID, Refuse, FitPlan;
    if PublicationFault(c, r).Some? {
      HeldAlone(c, PublicationFault(c, r).value, Fault(InvalidRequestID));
    } else {
      Publishable(c, r);
      OpenKeeps(c, r.device);
      OpenFrame(c, r.device);
      var ready := OpenBucket(c, r.device);
      if BindingFault(ready, r).Some? {
        HeldAlone(ready, BindingFault(ready, r).value, Fault(InvalidRequestID));
      } else {
        FitHolds(ready, r, stamp);
      }
    }
  }

  lemma FitHolds(c: Core, r: Publication, stamp: int)
    requires Bucketed(c) && r.device in c.deviceIDs
    ensures Held(FitPlan(c, r, stamp))
  {
    hide Bucketed, Held, AcceptDeviceID, SaveAndAnswer, Changes;
    var recorded := AcceptDeviceID(c, r.device, r.requestID, stamp);
    AcceptKeeps(c, r.device, r.requestID, stamp);
    NarrowerKeeps(recorded, Bind(recorded, r.binding));
    HeldAlone(recorded, RequestReplayed, Published(r.device, r.binding.capability, c.directoryVersion, false));
    HeldAlone(Bind(recorded, r.binding), RequestReplayed, Published(r.device, r.binding.capability, c.directoryVersion + 1, true));
  }

  lemma PlanHolds(c: Core, call: Call)
    requires Inv(c) && Bucketed(c)
    ensures Held(PlanOf(c, call))
  {
    hide Inv, Bucketed, Held, BeginPlan, ApprovePlan, PollPlan, RevokePlan, SyncPlan, PublishPlan, OwnerRequestFault,
      InitializationFault, InstallOwner, Refuse, SaveAndAnswer, Remembered, Queued;
    match call
    case InitializeCall(r) =>
      if InitializationFault(c, r).Some? {
        HeldAlone(c, InitializationFault(c, r).value, Fault(InvalidRequestID));
      } else {
        Installable(c, r);
        UninitializedIsEmpty(c);
        InstallHolds(r.fabric, r.owner, r.key);
        HeldAlone(InstallOwner(c, r.fabric, r.owner, r.key), InvalidRequestID, Initialized(r.fabric, r.owner, 1));
      }
    case BeginCall(r, now, stamp, tokens) => BeginHolds(c, r, now, stamp, tokens);
    case ApproveCall(r, now, later) => ApproveHolds(c, r, now, later);
    case PollCall(r, now) => PollHolds(c, r, now);
    case RevokeCall(r) => RevokeHolds(c, r);
    case SyncCall(r, stamp) => SyncHolds(c, r, stamp);
    case PublishCall(r, stamp) => PublishHolds(c, r, stamp);
    case ListCall(r) =>
      var refused := OwnerRequestFault(c, r.schema, r.version, r.owner, r.requestID, ListingOf(r), r.signature);
      if refused.Some? {
        HeldAlone(c, refused.value, Fault(InvalidRequestID));
      } else {
        NarrowerKeeps(c, AcceptOwnerID(c, r.requestID));
        HeldAlone(AcceptOwnerID(c, r.requestID), InvalidRequestID, Listed(c.fabric, c.directoryVersion));
      }
  }

  // ---- over a run ------------------------------------------------------------------------------

  predicate WorldHolds(w: World) {
    && (w.stored.Some? ==> Bucketed(w.stored.value))
    && (!w.failed ==> Bucketed(w.core))
  }

  lemma ReopenedHolds(c: Core, stamps: Readings)
    requires Bucketed(c)
    ensures Bucketed(Reopened(c, stamps))
  {
  }

  lemma StepHolds(w: World, action: Action, v: World)
    requires Sound(w) && WorldHolds(w) && Happens(w, action, v)
    ensures WorldHolds(v)
  {
    hide Inv, Bucketed, PlanOf, TokensFresh, InSync, Prune, Reopened;
    match action
    case Called(call, reply) =>
      if !w.failed {
        PlanHolds(w.core, call);
      }
    case Restarted(stamps, later) =>
      EmptyHolds();
      if w.stored.Some? {
        ReopenedHolds(w.stored.value, stamps);
        PruneHolds(Reopened(w.stored.value, stamps), later);
      }
  }

  lemma {:induction false} RunsHold(worlds: seq<World>, actions: seq<Action>, n: nat)
    requires IsRun(worlds, actions) && n < |worlds|
    ensures WorldHolds(worlds[n])
  {
    hide Happens, Bucketed, Sound;
    if n == 0 {
      EmptyHolds();
    } else {
      RunsHold(worlds, actions, n - 1);
      RunsStaySound(worlds, actions, n - 1);
      StepHolds(worlds[n - 1], actions[n - 1], worlds[n]);
    }
  }

  /** In every world of every run each registered Device but the Owner, and each Device
      with an activation, has a bucket, and all of these together are at most 4096: the
      limit is only ever passed by the Owner's own bucket. */
  lemma OnlyTheOwnerExceeds(worlds: seq<World>, actions: seq<Action>, n: nat, c: Core)
    requires IsRun(worlds, actions) && n < |worlds| && Holds(worlds[n], c)
    ensures forall d | d in c.devices && d != c.owner :: d in c.deviceIDs
    ensures forall code | code in c.activations :: c.activations[code].device in c.deviceIDs
    ensures |c.deviceIDs.Keys - {c.owner}| <= 4096
    ensures |c.deviceOrder| <= 4097
    ensures |c.deviceOrder| > 4096 <==> c.owner in c.deviceOrder && |Others(c)| == 4096
  {
    hide IsRun;
    RunsHold(worlds, actions, n);
    assert c.deviceIDs.Keys - {c.owner} == Others(c);
    if c.owner in c.deviceOrder {
      assert c.deviceOrder.Keys == Others(c) + {c.owner};
    } else {
      assert c.deviceOrder.Keys == Others(c);
    }
  }

  /** What any run has saved is refused by a restart if and only if the Owner's own bucket
      is saved beside 4096 others. */
  lemma RestartRefusedExactly(worlds: seq<World>, actions: seq<Action>, n: nat, p: Persisted, c: Core)
    requires IsRun(worlds, actions) && n < |worlds| && worlds[n].stored == Some(c) && IsSnapshot(p, c)
    ensures !Acceptable(p) <==> c.owner in c.deviceOrder && |Others(c)| == 4096
  {
    hide IsRun, IsSnapshot, Acceptable, Others;
    HeldIsSafe(worlds, actions, n, c);
    OnlyTheOwnerExceeds(worlds, actions, n, c);
    RestartAcceptsExactly(p, c);
  }

  // ---- a run that gets there ---------------------------------------------------------------------

  const FABRIC := "fabric-one"
  const OWNER_KEY := "qqqqqqqqqqqqqqqqqqqqqqqqqqqqqqqq"
  const REQUEST_ID := "request-0123456789"
  const VERSION := Release(1, "1.0.0")

  function Letter(x: nat): char
    requires x < 16
  {
    'a' + x as char
  }

  /** 4096 different keys. */
  function KeyAt(i: nat): Key
    requires i < 4096
  {
    "aaaaaaaaaaaaaaaaaaaaaaaaaaaaa" + [Letter(i / 256), Letter(i / 16 % 16), Letter(i % 16)]
  }

  lemma KeysDiffer(i: nat, j: nat)
    requires i < 4096 && j < 4096 && KeyAt(i) == KeyAt(j)
    ensures i == j
  {
    assert KeyAt(i)[29] == KeyAt(j)[29] && KeyAt(i)[30] == KeyAt(j)[30] && KeyAt(i)[31] == KeyAt(j)[31];
  }

  lemma KeysAreValid(i: nat)
    requires i < 4096
    ensures ValidKey(KeyAt(i)) && KeyAt(i) != OWNER_KEY
  {
    assert KeyAt(i)[0] == 'a';
  }

  function Owner(): string { DeviceID(OWNER_KEY) }

  function DeviceAt(i: nat): string
    requires i < 4096
  {
    DeviceID(KeyAt(i))
  }

  function FirstRequest(): Initialization {
    Initialization(ENROLLMENT_SCHEMA, VERSION, FABRIC, Owner(), OWNER_KEY,
                   SignedBy(OWNER_KEY, InitializeMessage(FABRIC, Owner(), OWNER_KEY, VERSION)))
  }

  function RequestAt(i: nat): Authorization
    requires i < 4096
  {
    Authorization(ENROLLMENT_SCHEMA, VERSION, DeviceAt(i), "node", KeyAt(i), REQUEST_ID,
                  SignedBy(KeyAt(i), AuthorizeMessage(DeviceAt(i), "node", KeyAt(i), VERSION, REQUEST_ID)))
  }

  function OwnerSync(): Sync {
    Sync(ENROLLMENT_SCHEMA, VERSION, Owner(), REQUEST_ID, SignedBy(OWNER_KEY, SyncMessage(Owner(), REQUEST_ID, VERSION)))
  }

  /** The tables once `n` strangers have begun, each without getting a code. */
  function Begun(n: nat): Core
    requires n <= 4096
  {
    if n == 0 then InstallOwner(Empty(), FABRIC, Owner(), OWNER_KEY)
    else AcceptDeviceID(Begun(n - 1), DeviceAt(n - 1), REQUEST_ID, 1)
  }

  /** Everything about them but the histories of the buckets. */
  predicate BegunShape(c: Core, n: nat)
    requires n <= 4096
  {
    && c.fabric == FABRIC && c.owner == Owner() && c.ownerKey == OWNER_KEY && c.activations == map[]
    && c.devices == map[Owner() := DeviceRecord(Owner(), OWNER_NAME, OWNER_KEY, ACTIVE)]
    && c.deviceIDs.Keys == c.deviceOrder.Keys == c.deviceSince.Keys && |c.deviceIDs| == |c.deviceOrder| == n
    && (forall d | d in c.deviceIDs :: exists i | 0 <= i < n :: d == DeviceAt(i))
    && (forall d | d in c.deviceSince :: c.deviceSince[d] == 1)
  }

  lemma {:induction false} BegunHasShape(n: nat)
    requires n <= 4096
    ensures BegunShape(Begun(n), n)
  {
    hide DeviceAt, AcceptDeviceID, BegunShape;
    if n == 0 {
      InstalledShape();
    } else {
      BegunHasShape(n - 1);
      NewDevice(Begun(n - 1), n - 1);
      AcceptKeys(Begun(n - 1), DeviceAt(n - 1), REQUEST_ID, 1);
      OneMoreStranger(Begun(n - 1), Begun(n), n - 1);
    }
  }

  lemma InstalledShape()
    ensures BegunShape(Begun(0), 0)
  {
  }

  lemma OneMoreStranger(c: Core, d: Core, n: nat)
    requires n < 4096 && BegunShape(c, n) && DeviceAt(n) !in c.deviceIDs
    requires d.fabric == c.fabric && d.owner == c.owner && d.ownerKey == c.ownerKey && d.devices == c.devices
    requires d.activations == c.activations && d.deviceSince == c.deviceSince[DeviceAt(n) := 1]
    requires d.deviceIDs.Keys == c.deviceIDs.Keys + {DeviceAt(n)} && d.deviceOrder.Keys == c.deviceOrder.Keys + {DeviceAt(n)}
    ensures BegunShape(d, n + 1)
  {
    hide DeviceAt;
    assert |d.deviceIDs.Keys| == n + 1 && |d.deviceOrder.Keys| == n + 1;
  }

  lemma NewDevice(c: Core, n: nat)
    requires n < 4096 && BegunShape(c, n)
    ensures DeviceAt(n) !in c.deviceIDs && DeviceAt(n) != Owner()
  {
    if DeviceAt(n) in c.deviceIDs {
      var i :| 0 <= i < n && DeviceAt(n) == DeviceAt(i);
      DeviceIDInjective(KeyAt(n), KeyAt(i));
      KeysDiffer(n, i);
    }
    if DeviceAt(n) == Owner() {
      DeviceIDInjective(KeyAt(n), OWNER_KEY);
      KeysAreValid(n);
    }
  }

  lemma TextsAreFine()
    ensures ValidRequestID(REQUEST_ID) && ValidDeviceName("node") && ValidKey(OWNER_KEY)
    ensures ValidIdentifier(FABRIC, LONGEST_ENROLLMENT_IDENTIFIER)
  {
    assert Trim("node") == "node";
  }

  lemma NothingStale(c: Core, n: nat)
    requires n <= 4096 && BegunShape(c, n)
    ensures !Prunes(c, 1)
  {
    hide DropExpired, DeviceAt;
    assert Expired(c, 1) == {};
    SinceStays(c, 1);
    assert forall d | d in c.deviceSince :: !Stale(DropExpired(c, 1), d, 1);
  }

  lemma SinceStays(c: Core, now: int)
    ensures DropExpired(c, now).deviceSince == c.deviceSince
  {
    hide Expired, ExpiredUserCodes;
  }

  lemma StrangerIsRecorded(n: nat)
    requires n < 4096
    ensures BeginPlan(Begun(n), RequestAt(n), 1, 1, None) == After(Begun(n + 1), Refuse(Begun(n + 1), EntropyUnavailable))
  {
    hide ValidRequestID, ValidDeviceName, ValidKey, ValidIdentifier, AcceptDeviceID, KeyAt, Prunes;
    BegunHasShape(n);
    NewDevice(Begun(n), n);
    KeysAreValid(n);
    TextsAreFine();
    NothingStale(Begun(n), n);
    assert Begun(n + 1) == AcceptDeviceID(Begun(n), DeviceAt(n), REQUEST_ID, 1);
  }

  /** The Owner's first synchronization, after them. */
  function Overfull(): Core {
    AcceptDeviceID(OpenBucket(Begun(4096), Owner()), Owner(), REQUEST_ID, 1)
  }

  lemma OwnerIsRecorded()
    ensures SyncPlan(Begun(4096), OwnerSync(), 1)
            == SaveAndAnswer(Overfull(), Versions(FABRIC, Owner(), ACTIVE, Begun(4096).directoryVersion, Begun(4096).grantVersion))
    ensures |Overfull().deviceOrder| == 4097
  {
    hide ValidRequestID, Remembered, Queued, Begun, DeviceAt;
    var c := Begun(4096);
    BegunHasShape(4096);
    TextsAreFine();
    OwnerHasNone(c);
    AcceptKeys(OpenBucket(c, Owner()), Owner(), REQUEST_ID, 1);
  }

  lemma OwnerHasNone(c: Core)
    requires BegunShape(c, 4096)
    ensures Owner() !in c.deviceIDs
  {
    if Owner() in c.deviceIDs {
      var i :| 0 <= i < 4096 && Owner() == DeviceAt(i);
      DeviceIDInjective(KeyAt(i), OWNER_KEY);
      KeysAreValid(i);
    }
  }

  lemma OwnerIsInstalled()
    ensures InitializePlan(Empty(), FirstRequest()) == SaveAndAnswer(Begun(0), Initialized(FABRIC, Owner(), 1))
  {
    hide ValidKey, ValidIdentifier;
    TextsAreFine();
  }

  function WorldAt(i: nat): World
    requires i <= 4098
  {
    if i == 0 then World(Empty(), false, None)
    else if i <= 4097 then World(Begun(i - 1), false, Some(Begun(i - 1)))
    else World(Overfull(), false, Some(Overfull()))
  }

  function ActionAt(i: nat): Action
    requires i <= 4097
  {
    if i == 0 then Called(InitializeCall(FirstRequest()), Initialized(FABRIC, Owner(), 1))
    else if i <= 4096 then Called(BeginCall(RequestAt(i - 1), 1, 1, None), Fault(EntropyUnavailable))
    else
      Called(SyncCall(OwnerSync(), 1), Versions(FABRIC, Owner(), ACTIVE, Begun(4096).directoryVersion, Begun(4096).grantVersion))
  }

  lemma StepHappens(i: nat)
    requires i <= 4097
    ensures Happens(WorldAt(i), ActionAt(i), WorldAt(i + 1))
  {
    hide Begun, Overfull, RequestAt, FirstRequest, OwnerSync, InitializePlan, BeginPlan, SyncPlan;
    if i == 0 {
      OwnerIsInstalled();
    } else if i <= 4096 {
      StrangerIsRecorded(i - 1);
    } else {
      OwnerIsRecorded();
    }
  }

  /** The Owner is initialized, 4096 strangers begin, none of whom gets a code, and the Owner
      synchronizes for the first time: everything is answered and saved, and what is saved
      is refused by every restart. */
  lemma OverfullRun() returns (worlds: seq<World>, actions: seq<Action>, c: Core)
    ensures IsRun(worlds, actions) && |actions| == 4098
    ensures worlds[4098] == World(c, false, Some(c)) && |c.deviceOrder| == 4097
    ensures forall p | IsSnapshot(p, c) :: !Acceptable(p)
  {
    hide Happens, WorldAt, ActionAt, Inv, IsSnapshot, Acceptable, Overfull;
    worlds := seq(4099, i requires 0 <= i < 4099 => WorldAt(i));
    actions := seq(4098, i requires 0 <= i < 4098 => ActionAt(i));
    c := Overfull();
    TheEnds();
    forall i, j | 0 <= i < |actions| && j == i + 1
      ensures Happens(worlds[i], actions[i], worlds[j])
    {
      StepHappens(i);
    }
    OwnerIsRecorded();
    HeldIsSafe(worlds, actions, 4098, c);
    forall p | IsSnapshot(p, c)
      ensures !Acceptable(p)
    {
      RestartAcceptsExactly(p, c);
    }
  }

  lemma TheEnds()
    ensures WorldAt(0) == World(Empty(), false, None) && WorldAt(4098) == World(Overfull(), false, Some(Overfull()))
  {
  }
}
