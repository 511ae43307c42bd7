/** What each answer of the Manager says about the request and the tables, in terms of
    signatures, clock readings and table entries, and why a request is refused. */
module EnrollmentAnswers {
  import opened Common
  import opened Identity
  import opened Snapshots
  import opened Enrollment
  import opened EnrollmentHistory
  import opened EnrollmentSafety
  import opened EnrollmentPersistence
  import opened EnrollmentManager
  import opened EnrollmentRuns
  import ShellBinding

  /** A call that is answered and saved: `c` is in memory before it, `d` after it. */
  ghost predicate Answers(w: World, call: Call, reply: Reply, v: World) {
    !w.failed && !v.failed && Happens(w, Called(call, reply), v)
  }

  lemma AnswersByPlan(w: World, call: Call, reply: Reply, v: World)
    requires Answers(w, call, reply, v)
    ensures PlanOf(w.core, call).reply == reply && PlanOf(w.core, call).final == v.core
  {
    hide PlanOf, TokensFresh;
  }

  // ---- names and versions ---------------------------------------------------------------

  /** What is trimmed off a name is blank, and nothing blank is left at its ends. */
  lemma TrimMeans(name: string) returns (left: string, right: string)
    ensures name == left + Trim(name) + right && Blank(left) && Blank(right)
    ensures Trim(name) != "" ==> !Space(Trim(name)[0]) && !Space(Trim(name)[|Trim(name)| - 1])
  {
    left := TrimLeftMeans(name);
    right := TrimRightMeans(TrimLeft(name));
    var rest := TrimLeft(name);
    assert rest == Trim(name) + right;
    assert name == left + (Trim(name) + right);
  }

  lemma {:induction false} TrimLeftMeans(text: string) returns (left: string)
    ensures text == left + TrimLeft(text) && Blank(left)
    ensures TrimLeft(text) != "" ==> !Space(TrimLeft(text)[0])
  {
    if text != "" && Space(text[0]) {
      var rest := TrimLeftMeans(text[1..]);
      left := [text[0]] + rest;
      assert text == [text[0]] + text[1..];
    } else {
      left := "";
    }
  }

  lemma {:induction false} TrimRightMeans(text: string) returns (right: string)
    ensures text == TrimRight(text) + right && Blank(right)
    ensures TrimRight(text) != "" ==> !Space(TrimRight(text)[|TrimRight(text)| - 1]) && TrimRight(text)[0] == text[0]
  {
    if text != "" && Space(text[|text| - 1]) {
      var rest := TrimRightMeans(text[..|text| - 1]);
      right := rest + [text[|text| - 1]];
      assert text == text[..|text| - 1] + [text[|text| - 1]];
    } else {
      right := "";
    }
  }

  predicate Current(schema: string, version: ClientVersion) {
    schema == "pfremote.enrollment/v1" && version.Release? && version.major == 1
  }

  /** Sixteen to 128 letters, digits, hyphens and underscores. */
  predicate PlainID(id: string) {
    && 16 <= |id| <= 128
    && forall k | 0 <= k < |id| :: 'a' <= id[k] <= 'z' || 'A' <= id[k] <= 'Z' || '0' <= id[k] <= '9' || id[k] in "-_"
  }

  lemma PlainIDs(id: string)
    ensures ValidRequestID(id) <==> PlainID(id)
  {
    assert forall c: char :: c in "-_" <==> c == '-' || c == '_';
  }

  /** Trimmed, a name has 1 to 80 characters, none of which is a control character. */
  lemma NamesMean(name: string)
    ensures ValidDeviceName(name) <==>
            && 1 <= |Trim(name)| <= 80
            && forall k | 0 <= k < |Trim(name)| :: 32 <= Trim(name)[k] as int < 127 || 160 <= Trim(name)[k] as int
  {
    hide Trim;
  }

  lemma CurrentVersions(schema: string, version: ClientVersion)
    ensures VersionFault(schema, version).None? <==> Current(schema, version)
    ensures VersionFault(schema, version) == Some(UnsupportedSchema) ==> schema != "pfremote.enrollment/v1"
    ensures VersionFault(schema, version) == Some(UnsupportedClientVersion) ==> !(version.Release? && version.major == 1)
    ensures VersionFault(schema, version).Some? ==> VersionFault(schema, version).value in {UnsupportedSchema, UnsupportedClientVersion}
  {
  }

  // ---- initialization ----------------------------------------------------------------------

  /** Why an initialization is refused. */
  predicate InitializeRefusal(c: Core, r: Initialization, code: FaultCode) {
    match code
    case OwnerAlreadyInitialized => c.fabric != ""
    case UnsupportedSchema => r.schema != "pfremote.enrollment/v1"
    case UnsupportedClientVersion => !(r.version.Release? && r.version.major == 1)
    case InvalidFabricID => !ValidIdentifier(r.fabric, 64)
    case InvalidPublicKey => !ValidKey(r.key)
    case DeviceIdentityMismatch => r.owner != DeviceID(r.key)
    case InvalidSignature => r.signature != SignedBy(r.key, InitializeMessage(r.fabric, r.owner, r.key, r.version))
    case _ => false
  }

  lemma InitializeMeans(w: World, r: Initialization, reply: Reply, v: World)
    requires Answers(w, InitializeCall(r), reply, v)
    ensures reply.Initialized? ==>
              && Current(r.schema, r.version) && w.core.fabric == "" && ValidIdentifier(r.fabric, 64)
              && ValidKey(r.key) && r.owner == DeviceID(r.key)
              && r.signature == SignedBy(r.key, InitializeMessage(r.fabric, r.owner, r.key, r.version))
              && reply == Initialized(r.fabric, r.owner, 1)
              && v.core.fabric == r.fabric && v.core.owner == r.owner && v.core.ownerKey == r.key
              && v.core.directoryVersion == 1 && v.core.grantVersion == 1
              && v.core.devices == w.core.devices[r.owner := DeviceRecord(r.owner, "Owner controller", r.key, "active")]
    ensures !reply.Initialized? ==> v.core == w.core && reply.Fault? && InitializeRefusal(w.core, r, reply.code)
  {
    hide VersionFault, ValidIdentifier, ValidKey, DeviceID, Happens;
    AnswersByPlan(w, InitializeCall(r), reply, v);
    CurrentVersions(r.schema, r.version);
  }

  // ---- begin ------------------------------------------------------------------------------------

  /** Activations that have not expired. */
  function Alive(c: Core, now: int): set<Code> {
    set code | code in c.activations && now < c.activations[code].expiresAt
  }

  predicate AliveFor(c: Core, now: int, device: string) {
    exists code | code in c.activations :: now < c.activations[code].expiresAt && c.activations[code].device == device
  }

  /** The history of an unregistered Device without an activation is kept for 24 hours. */
  predicate Outdated(c: Core, now: int, device: string) {
    && device in c.deviceSince && device !in c.devices && !AliveFor(c, now, device)
    && now - c.deviceSince[device] >= 86_400_000_000_000
  }

  /** What the begin of an activation finds once expired state is gone. */
  ghost predicate Swept(c: Core, now: int, d: Core) {
    && d.activations.Keys == Alive(c, now) && (forall code | code in d.activations :: d.activations[code] == c.activations[code])
    && d.devices == c.devices && d.fabric == c.fabric
    && (forall device :: device in d.deviceIDs <==> device in c.deviceIDs && !Outdated(c, now, device))
    && (forall device | device in d.deviceIDs :: d.deviceIDs[device] == c.deviceIDs[device])
  }

  function AfterSweep(c: Core, now: int): Core {
    if Prunes(c, now) then Prune(c, now) else c
  }

  lemma SweepMeans(c: Core, now: int)
    ensures Swept(c, now, AfterSweep(c, now))
  {
    hide Prunes, DropBuckets, Outdated;
    var live := DropExpired(c, now);
    SweepActivations(c, now);
    forall device: string
      ensures device in StaleBuckets(live, now) <==> Outdated(c, now, device)
    {
      StaleMeans(c, now, device);
    }
    DroppedMeans(live, StaleBuckets(live, now));
    if !Prunes(c, now) {
      NothingSwept(c, now);
    }
  }

  lemma NothingSwept(c: Core, now: int)
    requires !Prunes(c, now)
    ensures Expired(c, now) == {} && StaleBuckets(DropExpired(c, now), now) == {}
  {
  }

  lemma SweepActivations(c: Core, now: int)
    ensures var d := DropExpired(c, now);
            && d.activations.Keys == Alive(c, now) && (forall code | code in d.activations :: d.activations[code] == c.activations[code])
            && d.devices == c.devices && d.fabric == c.fabric && d.deviceIDs == c.deviceIDs && d.deviceSince == c.deviceSince
  {
    hide ExpiredUserCodes;
  }

  lemma StaleMeans(c: Core, now: int, device: string)
    ensures device in StaleBuckets(DropExpired(c, now), now) <==> Outdated(c, now, device)
  {
    hide DropExpired;
    SweepActivations(c, now);
    assert HasActivation(DropExpired(c, now), device) <==> AliveFor(c, now, device);
  }

  lemma DroppedMeans(c: Core, gone: set<string>)
    ensures var d := DropBuckets(c, gone);
            && d.activations == c.activations && d.devices == c.devices && d.fabric == c.fabric
            && (forall device :: device in d.deviceIDs <==> device in c.deviceIDs && device !in gone)
            && (forall device | device in d.deviceIDs :: d.deviceIDs[device] == c.deviceIDs[device])
  {
  }

  /** Why a begin is refused; `d` are the tables left behind. */
  predicate BeginRefusal(c: Core, r: Authorization, now: int, tokens: Option<(Code, Code)>, d: Core, code: FaultCode) {
    match code
    case RequestReplayed => r.device in c.deviceIDs && r.requestID in c.deviceIDs[r.device]
    case ActivationAlreadyPending => AliveFor(c, now, r.device)
    case ActivationCapacityReached => |Alive(c, now)| >= 256 || (r.device !in d.deviceIDs && |d.deviceIDs| >= 4096)
    case EntropyUnavailable => tokens.None?
    case _ => AuthorizationRefusal(c, r, code)
  }

  predicate AuthorizationRefusal(c: Core, r: Authorization, code: FaultCode) {
    match code
    case OwnerNotInitialized => c.fabric == ""
    case UnsupportedSchema => r.schema != "pfremote.enrollment/v1"
    case UnsupportedClientVersion => !(r.version.Release? && r.version.major == 1)
    case InvalidRequestID => !PlainID(r.requestID)
    case InvalidDeviceName => !ValidDeviceName(r.name)
    case InvalidPublicKey => !ValidKey(r.key)
    case DeviceIdentityMismatch => r.device != DeviceID(r.key)
    case InvalidSignature => r.signature != SignedBy(r.key, AuthorizeMessage(r.device, r.name, r.key, r.version, r.requestID))
    case DeviceAlreadyActive => r.device in c.devices && c.devices[r.device].status == "active"
    case _ => false
  }

  /** Codes are only given for a begin that the Device signed with the key its ID shows,
      for a Device that is not active and has no activation, and within the limits. */
  lemma BeginMeans(w: World, r: Authorization, now: Clock, stamp: Clock, tokens: Option<(Code, Code)>, reply: Reply, v: World)
    requires Sound(w) && Answers(w, BeginCall(r, now, stamp, tokens), reply, v)
    ensures reply.Codes? ==>
              && Current(r.schema, r.version) && w.core.fabric != "" && PlainID(r.requestID) && ValidDeviceName(r.name)
              && ValidKey(r.key) && r.device == DeviceID(r.key)
              && r.signature == SignedBy(r.key, AuthorizeMessage(r.device, r.name, r.key, r.version, r.requestID))
              && !(r.device in w.core.devices && w.core.devices[r.device].status == "active")
              && !AliveFor(w.core, now, r.device) && |Alive(w.core, now)| < 256
              && tokens == Some((reply.deviceCode, reply.userCode))
              && Begun(w.core, r, now, reply, v.core)
    ensures !reply.Codes? ==> reply.Fault? && BeginRefusal(w.core, r, now, tokens, v.core, reply.code)
  {
    hide Happens, AuthorizationFault, AfterSweep, AdmitPlan, ValidDeviceName, ValidKey, DeviceID, Swept, Begun, After, Inv, Remembers,
      InSync;
    AnswersByPlan(w, BeginCall(r, now, stamp, tokens), reply, v);
    AuthorizationMeans(w.core, r);
    if AuthorizationFault(w.core, r).None? {
      var c := AfterSweep(w.core, now);
      SweptPlan(w.core, r, now, stamp, tokens);
      SweepMeans(w.core, now);
      AdmitMeans(c, r, now, stamp, tokens);
      SweptMeans(w.core, now, c, r.device);
      if reply.Codes? {
        SweptIsSafe(w.core, now);
        SafeRemembers(c, r.device);
        BegunMeans(w.core, c, r, now, stamp, tokens.value);
      }
    }
  }

  lemma SweptPlan(c: Core, r: Authorization, now: int, stamp: int, tokens: Option<(Code, Code)>)
    requires AuthorizationFault(c, r).None?
    ensures BeginPlan(c, r, now, stamp, tokens).final == AdmitPlan(AfterSweep(c, now), r, now, stamp, tokens).final
    ensures BeginPlan(c, r, now, stamp, tokens).reply == AdmitPlan(AfterSweep(c, now), r, now, stamp, tokens).reply
  {
    hide AdmitPlan, Prune, Prunes, AuthorizationFault;
  }

  lemma SweptIsSafe(c: Core, now: int)
    requires Inv(c) && c.fabric != ""
    ensures Inv(AfterSweep(c, now))
  {
    hide Inv, Prune, Prunes;
    PruneKeeps(c, now);
  }

  lemma SweptMeans(c: Core, now: int, d: Core, device: string)
    requires Swept(c, now, d)
    ensures |d.activations| == |Alive(c, now)| && (HasActivation(d, device) <==> AliveFor(c, now, device))
    ensures Bucket(d, device) <= Bucket(c, device)
  {
  }

  lemma AdmitMeans(c: Core, r: Authorization, now: int, stamp: int, tokens: Option<(Code, Code)>)
    ensures var plan := AdmitPlan(c, r, now, stamp, tokens);
            if plan.reply.Codes? then
              && r.requestID !in Bucket(c, r.device) && !HasActivation(c, r.device) && |c.activations| < 256
              && tokens == Some((plan.reply.deviceCode, plan.reply.userCode))
              && plan.reply == Codes(tokens.value.0, tokens.value.1, 600, 5)
              && plan.final == Start(AcceptDeviceID(c, r.device, r.requestID, stamp), tokens.value.0, tokens.value.1, r, now)
            else
              plan.reply.Fault? &&
              match plan.reply.code
              case RequestReplayed => r.requestID in Bucket(c, r.device)
              case ActivationAlreadyPending => HasActivation(c, r.device)
              case ActivationCapacityReached =>
                plan.final == c && (|c.activations| >= 256 || (r.device !in c.deviceIDs && |c.deviceIDs| >= 4096))
              case EntropyUnavailable => tokens.None?
              case _ => false
  {
    hide AcceptDeviceID, Start, Bucket, HasActivation;
  }

  /** A new activation: pending, polled at most every five seconds, gone in ten minutes. */
  predicate Begun(c: Core, r: Authorization, now: int, reply: Reply, d: Core)
    requires reply.Codes?
  {
    var code, userCode := reply.deviceCode, reply.userCode;
    && reply.expiresIn == 600 && reply.interval == 5
    && code in d.activations
    && d.activations[code] == Activation(code, userCode, r.device, Trim(r.name), r.key, now + 600_000_000_000, 5_000_000_000, 0, "pending")
    && userCode in d.userCodes && d.userCodes[userCode] == code
    && d.activations.Keys == Alive(c, now) + {code}
    && (forall other | other in Alive(c, now) && other != code :: d.activations[other] == c.activations[other])
    && d.devices == c.devices && r.device in d.deviceIDs && r.requestID in d.deviceIDs[r.device]
  }

  lemma BegunMeans(c: Core, swept: Core, r: Authorization, now: int, stamp: int, tokens: (Code, Code))
    requires Swept(c, now, swept) && Remembers(swept, r.device) && r.requestID !in Bucket(swept, r.device)
    ensures Begun(c, r, now, Codes(tokens.0, tokens.1, 600, 5),
                  Start(AcceptDeviceID(swept, r.device, r.requestID, stamp), tokens.0, tokens.1, r, now))
  {
    hide Remembered, Queued, Trim, AcceptDeviceID, Remembers;
    AcceptMeans(swept, r.device, r.requestID, stamp);
  }

  /** A Device's request queue only holds what its set holds. */
  predicate Remembers(c: Core, device: string) {
    forall id | id in Order(c, device) :: id in Bucket(c, device)
  }

  lemma SafeRemembers(c: Core, device: string)
    requires Inv(c)
    ensures Remembers(c, device)
  {
    hide Tables, Lawful, LastN, DeviceHistory;
    assert BucketOK(c, device);
  }

  lemma AcceptMeans(c: Core, device: string, id: string, stamp: int)
    requires Remembers(c, device) && id !in Bucket(c, device)
    ensures var d := AcceptDeviceID(c, device, id, stamp);
            && d.activations == c.activations && d.userCodes == c.userCodes && d.devices == c.devices
            && d.fabric == c.fabric && d.owner == c.owner && d.ownerKey == c.ownerKey && d.bindings == c.bindings
            && d.directoryVersion == c.directoryVersion && d.grantVersion == c.grantVersion
            && device in d.deviceIDs && id in d.deviceIDs[device]
            && (forall other | other != device :: other in d.deviceIDs <==> other in c.deviceIDs)
            && (forall other | other != device && other in d.deviceIDs :: d.deviceIDs[other] == c.deviceIDs[other])
            && d.deviceSince == (if device in c.deviceIDs then c.deviceSince else c.deviceSince[device := stamp])
  {
    hide Queued;
  }

  lemma AuthorizationMeans(c: Core, r: Authorization)
    ensures AuthorizationFault(c, r).None? <==>
              && Current(r.schema, r.version) && c.fabric != "" && PlainID(r.requestID) && ValidDeviceName(r.name)
              && ValidKey(r.key) && r.device == DeviceID(r.key)
              && r.signature == SignedBy(r.key, AuthorizeMessage(r.device, r.name, r.key, r.version, r.requestID))
              && !(r.device in c.devices && c.devices[r.device].status == "active")
    ensures AuthorizationFault(c, r).Some? ==> AuthorizationRefusal(c, r, AuthorizationFault(c, r).value)
  {
    hide VersionFault, ValidRequestID, PlainID, ValidDeviceName, ValidKey, DeviceID;
    CurrentVersions(r.schema, r.version);
    PlainIDs(r.requestID);
  }

  // ---- Owner requests ----------------------------------------------------------------------------

  /** Why an Owner request is turned away before it is recorded. */
  predicate OwnerRefusal(c: Core, schema: string, version: ClientVersion, owner: string, requestID: string, message: Message,
                         signature: Signature<Message>, code: FaultCode) {
    match code
    case OwnerNotInitialized => c.fabric == ""
    case UnsupportedSchema => schema != "pfremote.enrollment/v1"
    case UnsupportedClientVersion => !(version.Release? && version.major == 1)
    case OwnerIdentityMismatch => owner != c.owner
    case InvalidRequestID => !PlainID(requestID)
    case InvalidSignature => signature != SignedBy(c.ownerKey, message)
    case RequestReplayed => requestID in c.ownerIDs
    case _ => false
  }

  /** What is true of every Owner request that is recorded. */
  predicate FromOwner(c: Core, schema: string, version: ClientVersion, owner: string, requestID: string, message: Message,
                      signature: Signature<Message>) {
    && c.fabric != "" && Current(schema, version) && owner == c.owner && PlainID(requestID)
    && signature == SignedBy(c.ownerKey, message) && requestID !in c.ownerIDs
  }

  lemma OwnerRequestMeans(c: Core, schema: string, version: ClientVersion, owner: string, requestID: string, message: Message,
                          signature: Signature<Message>)
    ensures OwnerRequestFault(c, schema, version, owner, requestID, message, signature).None? <==>
              FromOwner(c, schema, version, owner, requestID, message, signature)
    ensures OwnerRequestFault(c, schema, version, owner, requestID, message, signature).Some? ==>
              OwnerRefusal(c, schema, version, owner, requestID, message, signature,
                           OwnerRequestFault(c, schema, version, owner, requestID, message, signature).value)
  {
    hide VersionFault, ValidRequestID, PlainID;
    CurrentVersions(schema, version);
    PlainIDs(requestID);
  }

  lemma AcceptOwnerMeans(c: Core, id: string)
    requires Inv(c) && id !in c.ownerIDs
    ensures id in AcceptOwnerID(c, id).ownerIDs
    ensures AcceptOwnerID(c, id).(ownerIDs := c.ownerIDs, ownerOrder := c.ownerOrder, log := c.log) == c
  {
    hide Tables, Lawful, BucketsOK, CountersOK, DevicesTraced, ActivationsTraced, Queued, OwnerHistory, LastN;
  }

  /** The counting window is still open. */
  predicate Counting(c: Core, now: int) {
    c.window != 0 && now - c.window < 60_000_000_000
  }

  predicate ApproveRefusal(c: Core, r: Approval, now: int, later: int, d: Core, code: FaultCode) {
    match code
    case UserCodeRateLimited => c.attempts >= 10 && Counting(c, now) && d.activations == c.activations
    case InvalidUserCode =>
      && r.userCode !in c.userCodes && d.activations == c.activations
      && (if Counting(c, now) then d.window == c.window && d.attempts == c.attempts + 1 else d.window == now && d.attempts == 1)
    case ActivationExpired =>
      && r.userCode in c.userCodes && d.activations == c.activations - {c.userCodes[r.userCode]}
      && (c.userCodes[r.userCode] !in c.activations || later >= c.activations[c.userCodes[r.userCode]].expiresAt)
    case ActivationNotPending =>
      && r.userCode in c.userCodes && c.userCodes[r.userCode] in c.activations && d.activations == c.activations
      && c.activations[c.userCodes[r.userCode]].status != "pending"
    case _ => false
  }

  /** An approval is only accepted under the Owner's signature over exactly this user code,
      and turns only the activation with this user code from pending to approved. */
  lemma ApproveMeans(w: World, r: Approval, now: Clock, later: Clock, reply: Reply, v: World)
    requires Sound(w) && Answers(w, ApproveCall(r, now, later), reply, v)
    ensures var message := ApproveMessage(r.owner, r.userCode, r.requestID, r.version);
            if FromOwner(w.core, r.schema, r.version, r.owner, r.requestID, message, r.signature) then
              && r.requestID in v.core.ownerIDs && v.core.devices == w.core.devices
              && if reply.Approved? then ApproveEffect(w.core, r, now, later, reply, v.core)
                 else reply.Fault? && ApproveRefusal(w.core, r, now, later, v.core, reply.code)
            else
              && v.core == w.core && reply.Fault?
              && OwnerRefusal(w.core, r.schema, r.version, r.owner, r.requestID, message, r.signature, reply.code)
  {
    hide Happens, OwnerRequestFault, AcceptOwnerID, CheckRate, SettlePlan, FromOwner, OwnerRefusal, ApproveEffect, ApproveRefusal, Inv, InSync;
    AnswersByPlan(w, ApproveCall(r, now, later), reply, v);
    OwnerRequestMeans(w.core, r.schema, r.version, r.owner, r.requestID, ApprovalOf(r), r.signature);
    if OwnerRequestFault(w.core, r.schema, r.version, r.owner, r.requestID, ApprovalOf(r), r.signature).None? {
      assert r.requestID !in w.core.ownerIDs by {
        assert FromOwner(w.core, r.schema, r.version, r.owner, r.requestID, ApprovalOf(r), r.signature);
        NotReplayed(w.core, r.schema, r.version, r.owner, r.requestID, ApprovalOf(r), r.signature);
      }
      AcceptOwnerMeans(w.core, r.requestID);
      SettleMeans(w.core, AcceptOwnerID(w.core, r.requestID), r, now, later);
    }
  }

  lemma NotReplayed(c: Core, schema: string, version: ClientVersion, owner: string, requestID: string, message: Message,
                    signature: Signature<Message>)
    requires FromOwner(c, schema, version, owner, requestID, message, signature)
    ensures requestID !in c.ownerIDs
  {
  }

  predicate ApproveEffect(c: Core, r: Approval, now: int, later: int, reply: Reply, d: Core)
    requires reply.Approved?
  {
    && (Counting(c, now) ==> c.attempts < 10) && r.userCode in c.userCodes && c.userCodes[r.userCode] in c.activations
    && var a := c.activations[c.userCodes[r.userCode]];
       && later < a.expiresAt && a.status == "pending" && reply == Approved(a.device, a.name)
       && d.activations == c.activations[c.userCodes[r.userCode] := a.(status := "approved")] && d.userCodes == c.userCodes
  }

  lemma SettleMeans(c: Core, recorded: Core, r: Approval, now: int, later: int)
    requires recorded.(ownerIDs := c.ownerIDs, ownerOrder := c.ownerOrder, log := c.log) == c
    ensures var plan := SettlePlan(CheckRate(recorded, now), r, now, later);
            && plan.final.devices == c.devices && plan.final.ownerIDs == recorded.ownerIDs
            && if plan.reply.Approved? then ApproveEffect(c, r, now, later, plan.reply, plan.final)
               else plan.reply.Fault? && ApproveRefusal(c, r, now, later, plan.final, plan.reply.code)
  {
    hide CheckRate, SettlePlan;
    RateMeans(recorded, now);
    SettledMeans(CheckRate(recorded, now), r, now, later);
  }

  lemma RateMeans(c: Core, now: int)
    ensures var d := CheckRate(c, now);
            && d.(window := c.window, attempts := c.attempts, log := c.log) == c
            && if Counting(c, now) then d.window == c.window && d.attempts == c.attempts else d.window == now && d.attempts == 0
  {
  }

  lemma SettledMeans(c: Core, r: Approval, now: int, later: int)
    ensures var plan, d := SettlePlan(c, r, now, later), SettlePlan(c, r, now, later).final;
            && d.devices == c.devices && d.ownerIDs == c.ownerIDs && d.window == c.window
            && d.attempts == (if plan.reply == Fault(InvalidUserCode) then c.attempts + 1 else c.attempts)
            && (!plan.reply.Approved? ==> plan.reply.Fault?)
            && (plan.reply == Fault(UserCodeRateLimited) <==> c.attempts >= 10)
            && (plan.reply.Approved? ==>
                  && r.userCode in c.userCodes && c.userCodes[r.userCode] in c.activations && d.userCodes == c.userCodes
                  && var a := c.activations[c.userCodes[r.userCode]];
                     && later < a.expiresAt && a.status == "pending" && plan.reply == Approved(a.device, a.name)
                     && d.activations == c.activations[c.userCodes[r.userCode] := a.(status := "approved")])
            && (plan.reply.Fault? ==>
                  match plan.reply.code
                  case UserCodeRateLimited => d.activations == c.activations
                  case InvalidUserCode => r.userCode !in c.userCodes && d.activations == c.activations
                  case ActivationExpired =>
                    && r.userCode in c.userCodes && d.activations == c.activations - {c.userCodes[r.userCode]}
                    && (c.userCodes[r.userCode] !in c.activations || later >= c.activations[c.userCodes[r.userCode]].expiresAt)
                  case ActivationNotPending =>
                    && r.userCode in c.userCodes && c.userCodes[r.userCode] in c.activations && d.activations == c.activations
                    && c.activations[c.userCodes[r.userCode]].status != "pending"
                  case _ => false)
  {
    hide Drop, CountWrongCode, Approve;
    CountMeans(c, now);
    if r.userCode in c.userCodes {
      DropMeans(c, c.userCodes[r.userCode]);
      if c.userCodes[r.userCode] in c.activations {
        MarkMeans(c, c.userCodes[r.userCode], r, later);
      }
    }
  }

  lemma CountMeans(c: Core, now: int)
    ensures CountWrongCode(c, now).(attempts := c.attempts, log := c.log) == c && CountWrongCode(c, now).attempts == c.attempts + 1
  {
  }

  /** An activation goes together with its user code. */
  lemma DropMeans(c: Core, code: Code)
    ensures Drop(c, code).(activations := c.activations, userCodes := c.userCodes) == c
    ensures Drop(c, code).activations == c.activations - {code}
    ensures code in c.activations ==> Drop(c, code).userCodes == c.userCodes - {c.activations[code].userCode}
  {
  }

  lemma MarkMeans(c: Core, code: Code, r: Approval, at: int)
    requires code in c.activations
    ensures var d := Approve(c, code, r, at);
            && d.(activations := c.activations, log := c.log) == c
            && d.activations == c.activations[code := c.activations[code].(status := "approved")]
  {
  }

  // ---- polling -------------------------------------------------------------------------------------

  /** The last poll is less than the current polling interval ago (RFC 8628, section 3.5). */
  predicate Hasty(a: Activation, now: int) {
    a.lastPoll != 0 && now - a.lastPoll < a.interval
  }

  /** What a poll of a known code does to its activation and to nothing else. */
  predicate PollEffect(c: Core, code: Code, now: int, reply: Reply, d: Core)
    requires code in c.activations
  {
    var a := c.activations[code];
    match reply
    case Fault(ActivationExpired) =>
      now >= a.expiresAt && d.activations == c.activations - {code} && d.userCodes == c.userCodes - {a.userCode} && d.devices == c.devices
    case Fault(SlowDown) =>
      && now < a.expiresAt && Hasty(a, now) && d.devices == c.devices && d.userCodes == c.userCodes
      && d.activations == c.activations[code := a.(lastPoll := now, interval := a.interval + 5_000_000_000)]
    case Fault(AuthorizationPending) =>
      && now < a.expiresAt && !Hasty(a, now) && a.status == "pending" && d.devices == c.devices && d.userCodes == c.userCodes
      && d.activations == c.activations[code := a.(lastPoll := now)]
    case NowActive(fabric, device, directoryVersion, grantVersion) =>
      && now < a.expiresAt && !Hasty(a, now) && a.status == "approved"
      && d.devices == c.devices[a.device := DeviceRecord(a.device, a.name, a.key, "active")]
      && d.activations == c.activations - {code} && d.userCodes == c.userCodes - {a.userCode}
      && d.directoryVersion == c.directoryVersion + 1
      && reply == NowActive(c.fabric, a.device, d.directoryVersion, d.grantVersion)
    case _ => false
  }

  predicate PollRefusal(c: Core, r: Poll, code: FaultCode) {
    match code
    case OwnerNotInitialized => c.fabric == ""
    case UnsupportedSchema => r.schema != "pfremote.enrollment/v1"
    case UnsupportedClientVersion => !(r.version.Release? && r.version.major == 1)
    case InvalidDeviceCode => r.code !in c.activations
    case _ => false
  }

  /** A poll is answered by the state of its activation and the time since the last poll. */
  lemma PollMeans(w: World, r: Poll, now: Clock, reply: Reply, v: World)
    requires Sound(w) && Answers(w, PollCall(r, now), reply, v)
    ensures v.core.grantVersion == w.core.grantVersion && v.core.bindings == w.core.bindings
    ensures if w.core.fabric != "" && Current(r.schema, r.version) && r.code in w.core.activations then
              PollEffect(w.core, r.code, now, reply, v.core)
            else v.core == w.core && reply.Fault? && PollRefusal(w.core, r, reply.code)
  {
    hide Happens, PollFault, Inv, InSync, Drop, Polled, Activate, PollEffect, PollRefusal;
    AnswersByPlan(w, PollCall(r, now), reply, v);
    PollFaultMeans(w.core, r);
    if PollFault(w.core, r).None? {
      Pollable(w.core, r);
      PollStepsMean(w.core, r.code, now);
      PollKnownMeans(w.core, r, now);
    }
  }

  lemma PollFaultMeans(c: Core, r: Poll)
    ensures PollFault(c, r).None? <==> c.fabric != "" && Current(r.schema, r.version) && r.code in c.activations
    ensures PollFault(c, r).Some? ==> PollRefusal(c, r, PollFault(c, r).value)
  {
    hide VersionFault;
    CurrentVersions(r.schema, r.version);
  }

  lemma PollStepsMean(c: Core, code: Code, now: int)
    requires code in c.activations
    ensures code in Polled(c, code, now).activations
    ensures Drop(c, code).grantVersion == Polled(c, code, now).grantVersion == c.grantVersion
    ensures Drop(c, code).bindings == Polled(c, code, now).bindings == c.bindings
    ensures Activate(Polled(c, code, now), code, now).grantVersion == c.grantVersion
    ensures Activate(Polled(c, code, now), code, now).bindings == c.bindings
  {
    hide TooSoon;
  }

  lemma PollKnownMeans(c: Core, r: Poll, now: int)
    requires PollFault(c, r).None? && r.code in c.activations && c.activations[r.code].status in {PENDING, APPROVED}
    ensures PollEffect(c, r.code, now, PollPlan(c, r, now).reply, PollPlan(c, r, now).final)
  {
    hide PollFault, Drop, Activate, Polled;
    DropMeans(c, r.code);
    PolledMeans(c, r.code, now);
    ActivatedMeans(Polled(c, r.code, now), r.code, now);
    assert Polled(c, r.code, now).activations - {r.code} == c.activations - {r.code};
  }

  lemma PolledMeans(c: Core, code: Code, now: int)
    requires code in c.activations
    ensures var a := c.activations[code];
            && Polled(c, code, now).(activations := c.activations) == c
            && Polled(c, code, now).activations
               == c.activations[code := a.(lastPoll := now, interval := if Hasty(a, now) then a.interval + 5_000_000_000 else a.interval)]
    ensures TooSoon(c.activations[code], now) == Hasty(c.activations[code], now)
  {
  }

  lemma ActivatedMeans(c: Core, code: Code, now: int)
    requires code in c.activations
    ensures var a, d := c.activations[code], Activate(c, code, now);
            && d.devices == c.devices[a.device := DeviceRecord(a.device, a.name, a.key, "active")]
            && d.activations == c.activations - {code} && d.userCodes == c.userCodes - {a.userCode}
            && d.directoryVersion == c.directoryVersion + 1 && d.grantVersion == c.grantVersion && d.bindings == c.bindings
  {
  }

  // ---- revocation ------------------------------------------------------------------------------------

  predicate RevokeEffect(c: Core, r: Revocation, reply: Reply, d: Core) {
    && r.device != c.owner && r.device in c.devices && c.devices[r.device].status != "revoked"
    && d.devices == c.devices[r.device := c.devices[r.device].(status := "revoked")]
    && (forall k | k in c.bindings && c.bindings[k].device != r.device :: k in d.bindings && d.bindings[k] == c.bindings[k])
    && (forall k | k in d.bindings :: k in c.bindings && c.bindings[k].device != r.device)
    && d.directoryVersion == c.directoryVersion + 1 && d.grantVersion == c.grantVersion + 1 && d.activations == c.activations
    && reply == NowRevoked(r.device, d.directoryVersion, d.grantVersion)
  }

  predicate RevokeRefusal(c: Core, r: Revocation, code: FaultCode) {
    match code
    case OwnerDeviceRequiresRecovery => r.device == c.owner
    case DeviceNotFound => r.device !in c.devices
    case DeviceAlreadyRevoked => r.device in c.devices && c.devices[r.device].status == "revoked"
    case _ => false
  }

  /** A Device is revoked only under the Owner's signature over its ID: it keeps its record
      and loses exactly its Shell bindings. */
  lemma RevokeMeans(w: World, r: Revocation, reply: Reply, v: World)
    requires Sound(w) && Answers(w, RevokeCall(r), reply, v)
    ensures var message := RevokeMessage(r.owner, r.device, r.requestID, r.version);
            if FromOwner(w.core, r.schema, r.version, r.owner, r.requestID, message, r.signature) then
              && r.requestID in v.core.ownerIDs
              && if reply.NowRevoked? then RevokeEffect(w.core, r, reply, v.core)
                 else reply.Fault? && RevokeRefusal(w.core, r, reply.code) && v.core.devices == w.core.devices
            else
              && v.core == w.core && reply.Fault?
              && OwnerRefusal(w.core, r.schema, r.version, r.owner, r.requestID, message, r.signature, reply.code)
  {
    hide Happens, OwnerRequestFault, AcceptOwnerID, RevokeRecorded, FromOwner, OwnerRefusal, RevokeEffect, RevokeRefusal, Inv, InSync;
    AnswersByPlan(w, RevokeCall(r), reply, v);
    OwnerRequestMeans(w.core, r.schema, r.version, r.owner, r.requestID, RevocationOf(r), r.signature);
    if OwnerRequestFault(w.core, r.schema, r.version, r.owner, r.requestID, RevocationOf(r), r.signature).None? {
      NotReplayed(w.core, r.schema, r.version, r.owner, r.requestID, RevocationOf(r), r.signature);
      AcceptOwnerMeans(w.core, r.requestID);
      RevokedMeans(w.core, AcceptOwnerID(w.core, r.requestID), r);
    }
  }

  lemma RevokedMeans(c: Core, recorded: Core, r: Revocation)
    requires recorded.(ownerIDs := c.ownerIDs, ownerOrder := c.ownerOrder, log := c.log) == c
    ensures var plan := RevokeRecorded(recorded, r);
            && plan.final.ownerIDs == recorded.ownerIDs
            && if plan.reply.NowRevoked? then RevokeEffect(c, r, plan.reply, plan.final)
               else plan.reply.Fault? && RevokeRefusal(c, r, plan.reply.code) && plan.final.devices == c.devices
  {
    hide Revoke;
    assert recorded.devices == c.devices && recorded.bindings == c.bindings && recorded.owner == c.owner;
    assert recorded.directoryVersion == c.directoryVersion && recorded.grantVersion == c.grantVersion && recorded.activations == c.activations;
    if r.device in c.devices {
      StrikeMeans(recorded, r.device, r.signature);
    }
  }

  lemma StrikeMeans(c: Core, device: string, signature: Signature<Message>)
    requires device in c.devices
    ensures var d := Revoke(c, device, signature);
            && d.devices == c.devices[device := c.devices[device].(status := "revoked")]
            && (forall k | k in c.bindings && c.bindings[k].device != device :: k in d.bindings && d.bindings[k] == c.bindings[k])
            && (forall k | k in d.bindings :: k in c.bindings && c.bindings[k].device != device)
            && d.directoryVersion == c.directoryVersion + 1 && d.grantVersion == c.grantVersion + 1
            && d.activations == c.activations && d.ownerIDs == c.ownerIDs
  {
  }

  // ---- synchronization ---------------------------------------------------------------------------------

  predicate SyncRefusal(c: Core, r: Sync, code: FaultCode) {
    match code
    case OwnerNotInitialized => c.fabric == ""
    case UnsupportedSchema => r.schema != "pfremote.enrollment/v1"
    case UnsupportedClientVersion => !(r.version.Release? && r.version.major == 1)
    case InvalidRequestID => !PlainID(r.requestID)
    case DeviceNotFound => r.device !in c.devices
    case InvalidSignature =>
      r.device in c.devices && r.signature != SignedBy(c.devices[r.device].key, SyncMessage(r.device, r.requestID, r.version))
    case DeviceRevoked => r.device in c.devices && c.devices[r.device].status == "revoked"
    case RequestReplayed => r.device in c.deviceIDs && r.requestID in c.deviceIDs[r.device]
    case _ => false
  }

  /** Versions are only told to a registered Device that is not revoked and signed the
      request with its key. */
  lemma SyncMeans(w: World, r: Sync, stamp: Clock, reply: Reply, v: World)
    requires Sound(w) && Answers(w, SyncCall(r, stamp), reply, v)
    ensures v.core.devices == w.core.devices && v.core.activations == w.core.activations
    ensures if reply.Versions? then
              && w.core.fabric != "" && Current(r.schema, r.version) && PlainID(r.requestID)
              && r.device in w.core.devices && w.core.devices[r.device].status != "revoked"
              && r.signature == SignedBy(w.core.devices[r.device].key, SyncMessage(r.device, r.requestID, r.version))
              && !(r.device in w.core.deviceIDs && r.requestID in w.core.deviceIDs[r.device])
              && r.device in v.core.deviceIDs && r.requestID in v.core.deviceIDs[r.device]
              && reply == Versions(w.core.fabric, r.device, w.core.devices[r.device].status, w.core.directoryVersion, w.core.grantVersion)
            else reply.Fault? && SyncRefusal(w.core, r, reply.code)
  {
    hide Happens, SyncFault, Inv, InSync, AcceptDeviceID, OpenBucket, SyncRefusal, Remembers;
    AnswersByPlan(w, SyncCall(r, stamp), reply, v);
    SyncFaultMeans(w.core, r);
    if SyncFault(w.core, r).None? {
      OpenMeans(w.core, r.device);
      var ready := OpenBucket(w.core, r.device);
      SafeRemembers(w.core, r.device);
      OpenRemembers(w.core, r.device);
      if r.requestID !in Bucket(ready, r.device) {
        AcceptMeans(ready, r.device, r.requestID, stamp);
      } else {
        ReplayedSync(w.core, r);
      }
    }
  }

  lemma ReplayedSync(c: Core, r: Sync)
    requires r.requestID in Bucket(c, r.device)
    ensures SyncRefusal(c, r, RequestReplayed)
  {
  }

  lemma OpenMeans(c: Core, device: string)
    ensures OpenBucket(c, device).(deviceIDs := c.deviceIDs) == c && Bucket(OpenBucket(c, device), device) == Bucket(c, device)
    ensures device in OpenBucket(c, device).deviceIDs && OpenBucket(c, device).deviceIDs.Keys == c.deviceIDs.Keys + {device}
  {
  }

  lemma OpenRemembers(c: Core, device: string)
    requires Remembers(c, device)
    ensures Remembers(OpenBucket(c, device), device)
  {
    hide OpenBucket;
    OpenMeans(c, device);
  }

  lemma SyncFaultMeans(c: Core, r: Sync)
    ensures SyncFault(c, r).None? <==>
              && c.fabric != "" && Current(r.schema, r.version) && PlainID(r.requestID)
              && r.device in c.devices && c.devices[r.device].status != "revoked"
              && r.signature == SignedBy(c.devices[r.device].key, SyncMessage(r.device, r.requestID, r.version))
    ensures SyncFault(c, r).Some? ==> SyncRefusal(c, r, SyncFault(c, r).value)
  {
    hide VersionFault, ValidRequestID, PlainID;
    CurrentVersions(r.schema, r.version);
    PlainIDs(r.requestID);
  }

  // ---- publication ------------------------------------------------------------------------------------

  /** The publication comes from an active Device, signed with its key, for a binding of its own. */
  predicate FromDevice(c: Core, r: Publication) {
    && c.fabric != "" && Current(r.schema, r.version) && PlainID(r.requestID)
    && r.device in c.devices && c.devices[r.device].status == "active"
    && r.signature == SignedBy(c.devices[r.device].key, PublishMessage(r.device, r.binding.signature, r.requestID, r.version))
  }

  predicate PublishRefusal(c: Core, r: Publication, code: FaultCode) {
    var key := (r.binding.device, r.binding.capability);
    match code
    case OwnerNotInitialized => c.fabric == ""
    case UnsupportedSchema => r.schema != "pfremote.enrollment/v1"
    case UnsupportedClientVersion => !(r.version.Release? && r.version.major == 1)
    case InvalidRequestID => !PlainID(r.requestID)
    case DeviceNotFound => r.device !in c.devices
    case DeviceRevoked => r.device in c.devices && c.devices[r.device].status != "active"
    case InvalidSignature =>
      && r.device in c.devices
      && r.signature != SignedBy(c.devices[r.device].key, PublishMessage(r.device, r.binding.signature, r.requestID, r.version))
    case RequestReplayed => r.device in c.deviceIDs && r.requestID in c.deviceIDs[r.device]
    case CapabilityIdentityMismatch =>
      r.binding.device != r.device || r.binding.fabric != c.fabric || !ValidIdentifier(r.binding.capability, 64)
    case InvalidCapabilityBinding =>
      r.device in c.devices && !ShellBinding.Verify(r.device, c.devices[r.device].key, r.binding.capability, c.fabric, r.binding)
    case CapabilityBindingStale => key in c.bindings && r.binding.version < c.bindings[key].version
    case CapabilityBindingConflict =>
      key in c.bindings && r.binding.version == c.bindings[key].version && r.binding.signature != c.bindings[key].signature
    case CapabilityCapacityReached => key !in c.bindings && |c.bindings| >= 4096
    case DirectoryVersionExhausted => c.directoryVersion == 0xFFFF_FFFF_FFFF_FFFF
    case _ => false
  }

  /** What a publication that is answered leaves: a binding is only ever replaced by a newer one. */
  predicate PublishEffect(c: Core, r: Publication, reply: Reply, d: Core) {
    var key := (r.device, r.binding.capability);
    && reply.Published? && r.binding.device == r.device && r.binding.fabric == c.fabric && r.device in c.devices
    && ShellBinding.Verify(r.device, c.devices[r.device].key, r.binding.capability, c.fabric, r.binding)
    && (reply.changed <==> key !in c.bindings || c.bindings[key].version < r.binding.version)
    && (!reply.changed ==> c.bindings[key].version == r.binding.version && c.bindings[key].signature == r.binding.signature)
    && d.bindings == (if reply.changed then c.bindings[key := r.binding] else c.bindings)
    && d.directoryVersion == c.directoryVersion + (if reply.changed then 1 else 0) && d.grantVersion == c.grantVersion
    && reply == Published(r.device, r.binding.capability, d.directoryVersion, reply.changed)
    && !(r.device in c.deviceIDs && r.requestID in c.deviceIDs[r.device])
    && r.device in d.deviceIDs && r.requestID in d.deviceIDs[r.device]
  }

  lemma PublishMeans(w: World, r: Publication, stamp: Clock, reply: Reply, v: World)
    requires Sound(w) && Answers(w, PublishCall(r, stamp), reply, v)
    ensures v.core.devices == w.core.devices && v.core.activations == w.core.activations
    ensures if reply.Published? then FromDevice(w.core, r) && PublishEffect(w.core, r, reply, v.core)
            else reply.Fault? && PublishRefusal(w.core, r, reply.code) && v.core.bindings == w.core.bindings
  {
    hide Happens, PublicationFault, BindingFault, Inv, InSync, AcceptDeviceID, OpenBucket, PublishRefusal, FitPlan, FromDevice, PublishEffect,
      Remembers;
    AnswersByPlan(w, PublishCall(r, stamp), reply, v);
    PublicationMeans(w.core, r);
    if PublicationFault(w.core, r).None? {
      Publishable(w.core, r);
      OpenMeans(w.core, r.device);
      OpenFrame(w.core, r.device);
      var ready := OpenBucket(w.core, r.device);
      BindingMeans(w.core, ready, r);
      SafeRemembers(w.core, r.device);
      OpenRemembers(w.core, r.device);
      if BindingFault(ready, r).None? {
        FitMeans(w.core, ready, r, stamp);
      }
    }
  }

  lemma PublicationMeans(c: Core, r: Publication)
    ensures PublicationFault(c, r).None? <==> FromDevice(c, r)
    ensures PublicationFault(c, r).Some? ==> PublishRefusal(c, r, PublicationFault(c, r).value)
  {
    hide VersionFault, ValidRequestID, PlainID, ShellBinding.Verify, ValidIdentifier;
    CurrentVersions(r.schema, r.version);
    PlainIDs(r.requestID);
  }

  /** What is known of a binding once its checks are passed. */
  predicate Fits(c: Core, r: Publication) {
    var key := (r.device, r.binding.capability);
    && r.device in c.devices && r.binding.device == r.device && r.binding.fabric == c.fabric
    && ShellBinding.Verify(r.device, c.devices[r.device].key, r.binding.capability, c.fabric, r.binding)
    && !(r.device in c.deviceIDs && r.requestID in c.deviceIDs[r.device])
    && (key in c.bindings ==>
          && c.bindings[key].version <= r.binding.version
          && (c.bindings[key].version == r.binding.version ==> c.bindings[key].signature == r.binding.signature))
  }

  lemma BindingMeans(c: Core, ready: Core, r: Publication)
    requires r.device in c.devices && ready.(deviceIDs := c.deviceIDs) == c && Bucket(ready, r.device) == Bucket(c, r.device)
    ensures BindingFault(ready, r).None? ==> Fits(c, r)
    ensures BindingFault(ready, r).Some? ==> PublishRefusal(c, r, BindingFault(ready, r).value)
  {
    hide BindingFault, Bucket, PublishRefusal, Fits;
    assert ready.devices == c.devices && ready.bindings == c.bindings && ready.fabric == c.fabric;
    assert ready.directoryVersion == c.directoryVersion;
    BucketMeans(c, r);
    FaultOfBinding(ready, r);
    if BindingFault(ready, r).Some? {
      RefusedBinding(c, r, BindingFault(ready, r).value);
    } else {
      FittingBinding(c, r);
    }
  }

  lemma BucketMeans(c: Core, r: Publication)
    ensures r.requestID in Bucket(c, r.device) <==> r.device in c.deviceIDs && r.requestID in c.deviceIDs[r.device]
  {
  }

  /** The reasons that concern the binding. */
  predicate UnfitFor(bindings: map<(string, string), Binding>, devices: map<string, DeviceRecord>, fabric: string, directory: nat,
                     replayed: bool, r: Publication, code: FaultCode) {
    var key := (r.binding.device, r.binding.capability);
    match code
    case RequestReplayed => replayed
    case CapabilityIdentityMismatch =>
      r.binding.device != r.device || r.binding.fabric != fabric || !ValidIdentifier(r.binding.capability, 64)
    case InvalidCapabilityBinding =>
      r.device in devices && !ShellBinding.Verify(r.device, devices[r.device].key, r.binding.capability, fabric, r.binding)
    case CapabilityBindingStale => key in bindings && r.binding.version < bindings[key].version
    case CapabilityBindingConflict =>
      key in bindings && r.binding.version == bindings[key].version && r.binding.signature != bindings[key].signature
    case CapabilityCapacityReached => key !in bindings && |bindings| >= 4096
    case DirectoryVersionExhausted => directory == 0xFFFF_FFFF_FFFF_FFFF
    case _ => false
  }

  predicate FitFor(bindings: map<(string, string), Binding>, devices: map<string, DeviceRecord>, fabric: string, replayed: bool,
                   r: Publication) {
    var key := (r.device, r.binding.capability);
    && r.device in devices && r.binding.device == r.device && r.binding.fabric == fabric && !replayed
    && ShellBinding.Verify(r.device, devices[r.device].key, r.binding.capability, fabric, r.binding)
    && (key in bindings ==>
          && bindings[key].version <= r.binding.version
          && (bindings[key].version == r.binding.version ==> bindings[key].signature == r.binding.signature))
  }

  lemma FaultOfBinding(c: Core, r: Publication)
    requires r.device in c.devices
    ensures match BindingFault(c, r)
            case None => FitFor(c.bindings, c.devices, c.fabric, r.requestID in Bucket(c, r.device), r)
            case Some(code) => UnfitFor(c.bindings, c.devices, c.fabric, c.directoryVersion, r.requestID in Bucket(c, r.device), r, code)
  {
    hide ShellBinding.Verify, ValidIdentifier, Bucket;
  }

  lemma RefusedBinding(c: Core, r: Publication, code: FaultCode)
    requires UnfitFor(c.bindings, c.devices, c.fabric, c.directoryVersion,
                      r.device in c.deviceIDs && r.requestID in c.deviceIDs[r.device], r, code)
    ensures PublishRefusal(c, r, code)
  {
    hide ShellBinding.Verify, ValidIdentifier;
  }

  lemma FittingBinding(c: Core, r: Publication)
    requires FitFor(c.bindings, c.devices, c.fabric, r.device in c.deviceIDs && r.requestID in c.deviceIDs[r.device], r)
    ensures Fits(c, r)
  {
    hide ShellBinding.Verify;
  }

  lemma FitMeans(c: Core, ready: Core, r: Publication, stamp: int)
    requires ready.(deviceIDs := c.deviceIDs) == c && Fits(c, r) && Remembers(ready, r.device)
    requires Bucket(ready, r.device) == Bucket(c, r.device)
    ensures FitPlan(ready, r, stamp).reply.Published?
    ensures PublishEffect(c, r, FitPlan(ready, r, stamp).reply, FitPlan(ready, r, stamp).final)
    ensures FitPlan(ready, r, stamp).final.devices == c.devices && FitPlan(ready, r, stamp).final.activations == c.activations
  {
    hide AcceptDeviceID, ShellBinding.Verify, Remembers;
    AcceptMeans(ready, r.device, r.requestID, stamp);
  }

  // ---- listing ---------------------------------------------------------------------------------------------

  /** The bindings are only listed for the Owner's signature. */
  lemma ListMeans(w: World, r: Listing, reply: Reply, v: World)
    requires Sound(w) && Answers(w, ListCall(r), reply, v)
    ensures var message := ListMessage(r.owner, r.requestID, r.version);
            if FromOwner(w.core, r.schema, r.version, r.owner, r.requestID, message, r.signature) then
              && r.requestID in v.core.ownerIDs && reply == Listed(w.core.fabric, w.core.directoryVersion)
              && v.core.devices == w.core.devices && v.core.bindings == w.core.bindings
            else
              && v.core == w.core && reply.Fault?
              && OwnerRefusal(w.core, r.schema, r.version, r.owner, r.requestID, message, r.signature, reply.code)
  {
    hide Happens, OwnerRequestFault, AcceptOwnerID, FromOwner, OwnerRefusal, Inv, InSync;
    AnswersByPlan(w, ListCall(r), reply, v);
    OwnerRequestMeans(w.core, r.schema, r.version, r.owner, r.requestID, ListingOf(r), r.signature);
    if OwnerRequestFault(w.core, r.schema, r.version, r.owner, r.requestID, ListingOf(r), r.signature).None? {
      NotReplayed(w.core, r.schema, r.version, r.owner, r.requestID, ListingOf(r), r.signature);
      AcceptOwnerMeans(w.core, r.requestID);
    }
  }

  // ---- failed saves and restarts ------------------------------------------------------------------------------

  /** The same Owner, versions, Devices, bindings and Owner requests. */
  predicate SameDirectory(c: Core, d: Core) {
    && d.fabric == c.fabric && d.owner == c.owner && d.ownerKey == c.ownerKey
    && d.directoryVersion == c.directoryVersion && d.grantVersion == c.grantVersion
    && d.devices == c.devices && d.bindings == c.bindings && d.ownerIDs == c.ownerIDs && d.ownerOrder == c.ownerOrder
    && d.window == c.window && d.attempts == c.attempts
  }

  /** A call that cannot save is answered as such and ends the Manager's service; from then on
      nothing changes any more. */
  lemma FailedMeans(w: World, call: Call, reply: Reply, v: World)
    requires Happens(w, Called(call, reply), v) && (w.failed || v.failed)
    ensures reply == Fault(PersistenceFailed) && v.failed
    ensures w.failed ==> v == w
  {
    hide PlanOf, TokensFresh;
  }

  /** What an answered call leaves in memory is saved: a restart loses nothing of it but empty
      request histories and when the others were opened. */
  lemma AnsweredIsSaved(w: World, call: Call, reply: Reply, v: World)
    requires Sound(w) && Answers(w, call, reply, v)
    ensures v.stored.None? ==> v.core == Empty()
    ensures v.stored.Some? ==> SameDirectory(v.stored.value, v.core) && v.stored.value.activations == v.core.activations
                               && v.stored.value.userCodes == v.core.userCodes && v.stored.value.deviceOrder == v.core.deviceOrder
  {
    hide Happens, Inv;
    StepStaysSound(w, Called(call, reply), v);
  }

  /** A restart brings back everything that was saved, but activations that have expired and
      histories that are out of date. */
  lemma RestartMeans(w: World, stamps: Readings, later: Clock, v: World)
    requires Happens(w, Restarted(stamps, later), v)
    ensures !v.failed && (w.stored.None? ==> v.core == Empty())
    ensures w.stored.Some? ==>
              && SameDirectory(w.stored.value, v.core)
              && v.core.activations.Keys == Alive(w.stored.value, later)
              && forall code | code in v.core.activations :: v.core.activations[code] == w.stored.value.activations[code]
  {
    hide Prunes, DropBuckets, DropExpired, StaleBuckets, Alive;
    if w.stored.Some? {
      var c := w.stored.value;
      var d := Reopened(c, stamps);
      SweepKeepsDirectory(d, later);
      SweepActivations(d, later);
      DroppedMeans(DropExpired(d, later), StaleBuckets(DropExpired(d, later), later));
      assert Alive(d, later) == Alive(c, later) by {
        SameAlive(c, d, later);
      }
    }
  }

  lemma SameAlive(c: Core, d: Core, now: int)
    requires d.activations == c.activations
    ensures Alive(d, now) == Alive(c, now)
  {
  }

  lemma SweepKeepsDirectory(c: Core, now: int)
    ensures SameDirectory(c, Prune(c, now))
  {
    hide ExpiredUserCodes, StaleBuckets;
  }
}
