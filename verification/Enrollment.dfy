/** The enrollment protocol: requests, the Manager's tables as one value, the atomic
    changes made to them and, for each request, what the protocol prescribes.

    A code stands for its hash and a user code for its normalised text. A signed
    message is the tuple of its fields. Clock readings are positive; the time zero
    means "not set". */
module Enrollment {
  import opened Common
  import opened Identity
  import opened Snapshots
  import ShellBinding

  const SECOND := 1_000_000_000
  const MINUTE := 60 * SECOND
  const ENROLLMENT_SCHEMA := "pfremote.enrollment/v1"
  const SUPPORTED_CLIENT_MAJOR := 1
  const ACTIVATION_TTL := 10 * MINUTE
  const POLLING_INTERVAL := 5 * SECOND
  const SLOW_DOWN_STEP := 5 * SECOND
  const MAX_OWNER_REPLAY_IDS := 4096
  const MAX_DEVICE_REPLAY_IDS := 1024
  const MAX_DEVICE_REPLAY_BUCKETS := 4096
  const MAX_PENDING_ACTIVATIONS := 256
  const DEVICE_REPLAY_RETENTION := 24 * 60 * MINUTE
  const MAX_CODE_ATTEMPTS := 10
  const MAX_PUBLISHED_BINDINGS := 4096
  const LONGEST_ENROLLMENT_IDENTIFIER := 64
  const MAX_UINT64 := 0xFFFF_FFFF_FFFF_FFFF
  const OWNER_NAME := "Owner controller"
  const PENDING := "pending"
  const APPROVED := "approved"

  type Clock = t: int | t > 0 witness 1
  type Code = string

  // ---- requests and replies ----------------------------------------------------------

  datatype ClientVersion = Release(major: int, text: string) | Unparsed(text: string)

  datatype Message =
    | InitializeMessage(fabric: string, owner: string, key: Key, version: ClientVersion)
    | AuthorizeMessage(device: string, name: string, key: Key, version: ClientVersion, requestID: string)
    | ApproveMessage(owner: string, userCode: Code, requestID: string, version: ClientVersion)
    | RevokeMessage(owner: string, device: string, requestID: string, version: ClientVersion)
    | SyncMessage(device: string, requestID: string, version: ClientVersion)
    | PublishMessage(device: string, bindingSignature: Signature<string>, requestID: string, version: ClientVersion)
    | ListMessage(owner: string, requestID: string, version: ClientVersion)

  datatype Initialization = Initialization(schema: string, version: ClientVersion, fabric: string, owner: string, key: Key,
                                           signature: Signature<Message>)
  datatype Authorization = Authorization(schema: string, version: ClientVersion, device: string, name: string, key: Key,
                                         requestID: string, signature: Signature<Message>)
  datatype Approval = Approval(schema: string, version: ClientVersion, owner: string, userCode: Code, requestID: string,
                               signature: Signature<Message>)
  datatype Poll = Poll(schema: string, version: ClientVersion, code: Code)
  datatype Revocation = Revocation(schema: string, version: ClientVersion, owner: string, device: string, requestID: string,
                                   signature: Signature<Message>)
  datatype Sync = Sync(schema: string, version: ClientVersion, device: string, requestID: string, signature: Signature<Message>)
  datatype Publication = Publication(schema: string, version: ClientVersion, device: string, binding: Binding, requestID: string,
                                     signature: Signature<Message>)
  datatype Listing = Listing(schema: string, version: ClientVersion, owner: string, requestID: string, signature: Signature<Message>)

  datatype FaultCode =
    | PersistenceFailed | OwnerAlreadyInitialized | OwnerNotInitialized | UnsupportedSchema | UnsupportedClientVersion
    | InvalidFabricID | InvalidPublicKey | DeviceIdentityMismatch | InvalidSignature | InvalidRequestID | InvalidDeviceName
    | DeviceAlreadyActive | RequestReplayed | ActivationAlreadyPending | ActivationCapacityReached | EntropyUnavailable
    | OwnerIdentityMismatch | UserCodeRateLimited | InvalidUserCode | ActivationExpired | ActivationNotPending
    | InvalidDeviceCode | SlowDown | AuthorizationPending | ActivationDenied
    | OwnerDeviceRequiresRecovery | DeviceNotFound | DeviceAlreadyRevoked | DeviceRevoked
    | CapabilityIdentityMismatch | InvalidCapabilityBinding | CapabilityBindingStale | CapabilityBindingConflict
    | CapabilityCapacityReached | DirectoryVersionExhausted

  datatype Reply =
    | Fault(code: FaultCode)
    | Initialized(fabric: string, owner: string, directoryVersion: nat)
    | Codes(deviceCode: Code, userCode: Code, expiresIn: int, interval: int)
    | Approved(device: string, name: string)
    | NowActive(fabric: string, device: string, directoryVersion: nat, grantVersion: nat)
    | NowRevoked(device: string, directoryVersion: nat, grantVersion: nat)
    | Versions(fabric: string, device: string, status: string, directoryVersion: nat, grantVersion: nat)
    | Published(device: string, capability: string, directoryVersion: nat, changed: bool)
    | Listed(fabric: string, directoryVersion: nat)

  // ---- the tables ---------------------------------------------------------------------

  datatype Activation = Activation(code: Code, userCode: Code, device: string, name: string, key: Key, expiresAt: int,
                                   interval: int, lastPoll: int, status: string)

  datatype DeviceRecord = DeviceRecord(id: string, name: string, key: Key, status: string)

  /** What happened, in order. */
  datatype Event =
    | Installed(owner: string, key: Key)
    | OwnerAccepted(id: string)
    | DeviceAccepted(device: string, id: string)
    | BucketsDropped(devices: set<string>)
    | Began(code: Code, userCode: Code, device: string, key: Key, at: int, expires: int, signature: Signature<Message>)
    | WindowOpened(at: int)
    | WrongCode(at: int)
    | ApprovalGiven(code: Code, at: int, requestID: string, version: ClientVersion, signature: Signature<Message>)
    | Activated(code: Code, device: string, key: Key, at: int)
    | RevokedBy(device: string, signature: Signature<Message>)
    | BindingChanged(device: string, capability: string)

  /** The Manager's fields, and the history that led to them. */
  datatype Core = Core(
    fabric: string, owner: string, ownerKey: Key, directoryVersion: nat, grantVersion: nat,
    activations: map<Code, Activation>, userCodes: map<Code, Code>, devices: map<string, DeviceRecord>,
    ownerIDs: set<string>, ownerOrder: seq<string>,
    deviceIDs: map<string, set<string>>, deviceOrder: map<string, seq<string>>, deviceSince: map<string, int>,
    window: int, attempts: nat,
    bindings: map<(string, string), Binding>,
    log: seq<Event>)

  function Empty(): Core {
    Core("", "", "", 0, 0, map[], map[], map[], {}, [], map[], map[], map[], 0, 0, map[], [])
  }

  function Logged(c: Core, event: Event): Core {
    c.(log := c.log + [event])
  }

  // ---- checks ---------------------------------------------------------------------------

  function VersionFault(schema: string, version: ClientVersion): Option<FaultCode> {
    if schema != ENROLLMENT_SCHEMA then Some(UnsupportedSchema)
    else if !version.Release? || version.major != SUPPORTED_CLIENT_MAJOR then Some(UnsupportedClientVersion)
    else None
  }

  predicate RequestChar(c: char) {
    c == '-' || c == '_' || 'a' <= c <= 'z' || 'A' <= c <= 'Z' || '0' <= c <= '9'
  }

  predicate ValidRequestID(id: string) {
    16 <= |id| <= 128 && forall i | 0 <= i < |id| :: RequestChar(id[i])
  }

  function TrimLeft(text: string): string {
    if text != "" && Space(text[0]) then TrimLeft(text[1..]) else text
  }

  function Trim(text: string): string {
    TrimRight(TrimLeft(text))
  }

  function TrimRight(text: string): string {
    if text != "" && Space(text[|text| - 1]) then TrimRight(text[..|text| - 1]) else text
  }

  predicate Control(c: char) {
    c as int < 32 || 127 <= c as int < 160
  }

  predicate ValidDeviceName(name: string) {
    var trimmed := Trim(name);
    trimmed != "" && |trimmed| <= 80 && forall i | 0 <= i < |trimmed| :: !Control(trimmed[i])
  }

  /** What an Owner-signed request can be refused for before anything is recorded. */
  function OwnerFault(c: Core, owner: string, requestID: string, message: Message, signature: Signature<Message>): Option<FaultCode> {
    if owner != c.owner then Some(OwnerIdentityMismatch)
    else if !ValidRequestID(requestID) then Some(InvalidRequestID)
    else if !Verifies(c.ownerKey, message, signature) then Some(InvalidSignature)
    else if requestID in c.ownerIDs then Some(RequestReplayed)
    else None
  }

  predicate HasActivation(c: Core, device: string) {
    exists code | code in c.activations :: c.activations[code].device == device
  }

  function Bucket(c: Core, device: string): set<string> {
    if device in c.deviceIDs then c.deviceIDs[device] else {}
  }

  function Order(c: Core, device: string): seq<string> {
    if device in c.deviceOrder then c.deviceOrder[device] else []
  }

  function ApprovalOf(r: Approval): Message { ApproveMessage(r.owner, r.userCode, r.requestID, r.version) }
  function RevocationOf(r: Revocation): Message { RevokeMessage(r.owner, r.device, r.requestID, r.version) }
  function ListingOf(r: Listing): Message { ListMessage(r.owner, r.requestID, r.version) }

  // ---- atomic changes --------------------------------------------------------------------

  function Named(c: Core, fabric: string, owner: string, key: Key): Core {
    c.(fabric := fabric, owner := owner, ownerKey := key)
  }

  function InstallOwner(c: Core, fabric: string, owner: string, key: Key): Core {
    Logged(Named(c, fabric, owner, key).(directoryVersion := 1, grantVersion := 1,
                                         devices := c.devices[owner := DeviceRecord(owner, OWNER_NAME, key, ACTIVE)]),
           Installed(owner, key))
  }

  /** A queue that holds at most `capacity` IDs drops its oldest one. */
  function Queued(order: seq<string>, id: string, capacity: nat): seq<string> {
    if |order| + 1 > capacity then (order + [id])[1..] else order + [id]
  }

  function Remembered(ids: set<string>, order: seq<string>, id: string, capacity: nat): set<string> {
    if |order| + 1 > capacity then ids + {id} - {(order + [id])[0]} else ids + {id}
  }

  function AcceptOwnerID(c: Core, id: string): Core {
    Logged(c.(ownerIDs := Remembered(c.ownerIDs, c.ownerOrder, id, MAX_OWNER_REPLAY_IDS),
              ownerOrder := Queued(c.ownerOrder, id, MAX_OWNER_REPLAY_IDS)), OwnerAccepted(id))
  }

  /** A new bucket is stamped with the time it was opened. */
  function Stamped(c: Core, device: string, now: int): Core {
    if device in c.deviceIDs then c else c.(deviceSince := c.deviceSince[device := now])
  }

  function Enqueued(c: Core, device: string, id: string): Core {
    Logged(c.(deviceIDs := c.deviceIDs[device := Remembered(Bucket(c, device), Order(c, device), id, MAX_DEVICE_REPLAY_IDS)],
              deviceOrder := c.deviceOrder[device := Queued(Order(c, device), id, MAX_DEVICE_REPLAY_IDS)]),
           DeviceAccepted(device, id))
  }

  function AcceptDeviceID(c: Core, device: string, id: string, now: int): Core {
    Enqueued(Stamped(c, device, now), device, id)
  }

  /** SyncVersion and PublishShellCapability create a bucket without a time stamp. */
  function OpenBucket(c: Core, device: string): Core {
    if device in c.deviceIDs then c else c.(deviceIDs := c.deviceIDs[device := {}])
  }

  function Drop(c: Core, code: Code): Core {
    c.(activations := c.activations - {code}, userCodes := c.userCodes - if code in c.activations then {c.activations[code].userCode} else {})
  }

  function Expired(c: Core, now: int): set<Code> {
    set code | code in c.activations && now >= c.activations[code].expiresAt
  }

  function ExpiredUserCodes(c: Core, now: int): set<Code> {
    set code | code in c.activations && now >= c.activations[code].expiresAt :: c.activations[code].userCode
  }

  function DropExpired(c: Core, now: int): Core {
    c.(activations := c.activations - Expired(c, now), userCodes := c.userCodes - ExpiredUserCodes(c, now))
  }

  predicate Stale(c: Core, device: string, now: int)
    requires device in c.deviceSince
  {
    device !in c.devices && !HasActivation(c, device) && now - c.deviceSince[device] >= DEVICE_REPLAY_RETENTION
  }

  function StaleBuckets(c: Core, now: int): set<string> {
    set device | device in c.deviceSince && Stale(c, device, now)
  }

  function DropBuckets(c: Core, devices: set<string>): Core {
    if devices == {} then c
    else
      Logged(c.(deviceIDs := c.deviceIDs - devices, deviceOrder := c.deviceOrder - devices, deviceSince := c.deviceSince - devices),
             BucketsDropped(devices))
  }

  function Prune(c: Core, now: int): Core {
    var live := DropExpired(c, now);
    DropBuckets(live, StaleBuckets(live, now))
  }

  predicate Prunes(c: Core, now: int) {
    Expired(c, now) != {} || StaleBuckets(DropExpired(c, now), now) != {}
  }

  function Start(c: Core, code: Code, userCode: Code, r: Authorization, now: int): Core {
    Logged(c.(activations := c.activations[code := Activation(code, userCode, r.device, Trim(r.name), r.key, now + ACTIVATION_TTL,
                                                              POLLING_INTERVAL, 0, PENDING)],
              userCodes := c.userCodes[userCode := code]),
           Began(code, userCode, r.device, r.key, now, now + ACTIVATION_TTL, r.signature))
  }

  predicate WindowOver(c: Core, now: int) {
    c.window == 0 || now - c.window >= MINUTE
  }

  function OpenWindow(c: Core, now: int): Core {
    Logged(c.(window := now, attempts := 0), WindowOpened(now))
  }

  /** The counting window of wrong codes restarts once it is a minute old. */
  function CheckRate(c: Core, now: int): Core {
    if WindowOver(c, now) then OpenWindow(c, now) else c
  }

  function CountWrongCode(c: Core, now: int): Core {
    Logged(c.(attempts := c.attempts + 1), WrongCode(now))
  }

  function Approve(c: Core, code: Code, r: Approval, at: int): Core
    requires code in c.activations
  {
    Logged(c.(activations := c.activations[code := c.activations[code].(status := APPROVED)]),
           ApprovalGiven(code, at, r.requestID, r.version, r.signature))
  }

  predicate TooSoon(a: Activation, now: int) {
    a.lastPoll != 0 && now - a.lastPoll < a.interval
  }

  function Polled(c: Core, code: Code, now: int): Core
    requires code in c.activations
  {
    var a := c.activations[code];
    c.(activations := c.activations[code := a.(lastPoll := now, interval := a.interval + if TooSoon(a, now) then SLOW_DOWN_STEP else 0)])
  }

  function Activate(c: Core, code: Code, now: int): Core
    requires code in c.activations
  {
    var a := c.activations[code];
    Logged(Drop(c, code).(devices := c.devices[a.device := DeviceRecord(a.device, a.name, a.key, ACTIVE)],
                          directoryVersion := c.directoryVersion + 1),
           Activated(code, a.device, a.key, now))
  }

  /** A revoked Device keeps its record and loses its bindings. */
  function Struck(c: Core, device: string): Core
    requires device in c.devices
  {
    c.(devices := c.devices[device := c.devices[device].(status := REVOKED)],
       bindings := map k | k in c.bindings && c.bindings[k].device != device :: c.bindings[k])
  }

  function Revoke(c: Core, device: string, signature: Signature<Message>): Core
    requires device in c.devices
  {
    Logged(Struck(c, device).(directoryVersion := c.directoryVersion + 1, grantVersion := c.grantVersion + 1), RevokedBy(device, signature))
  }

  function Bind(c: Core, binding: Binding): Core {
    Logged(c.(bindings := c.bindings[(binding.device, binding.capability) := binding], directoryVersion := c.directoryVersion + 1),
           BindingChanged(binding.device, binding.capability))
  }

  // ---- what each request is answered -----------------------------------------------------

  /** The states to be saved, in order, and the state and the answer when every save succeeds. */
  datatype Plan = Plan(saves: seq<Core>, final: Core, reply: Reply)

  function Refuse(c: Core, code: FaultCode): Plan {
    Plan([], c, Fault(code))
  }

  /** One save, then the answer. */
  function SaveAndAnswer(c: Core, reply: Reply): Plan {
    Plan([c], c, reply)
  }

  /** A save that has to succeed before the rest is done. */
  function After(c: Core, rest: Plan): Plan {
    Plan([c] + rest.saves, rest.final, rest.reply)
  }

  function InitializationFault(c: Core, r: Initialization): Option<FaultCode> {
    if c.fabric != "" then Some(OwnerAlreadyInitialized)
    else if VersionFault(r.schema, r.version).Some? then VersionFault(r.schema, r.version)
    else if !ValidIdentifier(r.fabric, LONGEST_ENROLLMENT_IDENTIFIER) then Some(InvalidFabricID)
    else if !ValidKey(r.key) then Some(InvalidPublicKey)
    else if r.owner != DeviceID(r.key) then Some(DeviceIdentityMismatch)
    else if !Verifies(r.key, InitializeMessage(r.fabric, r.owner, r.key, r.version), r.signature) then Some(InvalidSignature)
    else None
  }

  function InitializePlan(c: Core, r: Initialization): Plan {
    var refused := InitializationFault(c, r);
    if refused.Some? then Refuse(c, refused.value)
    else SaveAndAnswer(InstallOwner(c, r.fabric, r.owner, r.key), Initialized(r.fabric, r.owner, 1))
  }

  function AuthorizationFault(c: Core, r: Authorization): Option<FaultCode> {
    if c.fabric == "" then Some(OwnerNotInitialized)
    else if VersionFault(r.schema, r.version).Some? then VersionFault(r.schema, r.version)
    else if !ValidRequestID(r.requestID) then Some(InvalidRequestID)
    else if !ValidDeviceName(r.name) then Some(InvalidDeviceName)
    else if !ValidKey(r.key) then Some(InvalidPublicKey)
    else if r.device != DeviceID(r.key) then Some(DeviceIdentityMismatch)
    else if !Verifies(r.key, AuthorizeMessage(r.device, r.name, r.key, r.version, r.requestID), r.signature) then Some(InvalidSignature)
    else if r.device in c.devices && c.devices[r.device].status == ACTIVE then Some(DeviceAlreadyActive)
    else None
  }

  /** Checked once expired state is gone. */
  function CapacityFault(c: Core, r: Authorization): Option<FaultCode> {
    if r.requestID in Bucket(c, r.device) then Some(RequestReplayed)
    else if HasActivation(c, r.device) then Some(ActivationAlreadyPending)
    else if |c.activations| >= MAX_PENDING_ACTIVATIONS then Some(ActivationCapacityReached)
    else if r.device !in c.deviceIDs && |c.deviceIDs| >= MAX_DEVICE_REPLAY_BUCKETS then Some(ActivationCapacityReached)
    else None
  }

  /** `now` and `stamp` are the two clock readings, `tokens` the random codes, if any. */
  function BeginPlan(c: Core, r: Authorization, now: int, stamp: int, tokens: Option<(Code, Code)>): Plan {
    var refused := AuthorizationFault(c, r);
    if refused.Some? then Refuse(c, refused.value)
    else if Prunes(c, now) then After(Prune(c, now), AdmitPlan(Prune(c, now), r, now, stamp, tokens))
    else AdmitPlan(c, r, now, stamp, tokens)
  }

  function AdmitPlan(c: Core, r: Authorization, now: int, stamp: int, tokens: Option<(Code, Code)>): Plan {
    var full := CapacityFault(c, r);
    if full.Some? then Refuse(c, full.value)
    else
      var recorded := AcceptDeviceID(c, r.device, r.requestID, stamp);
      After(recorded, StartPlan(recorded, r, now, tokens))
  }

  function StartPlan(c: Core, r: Authorization, now: int, tokens: Option<(Code, Code)>): Plan {
    if tokens.None? then Refuse(c, EntropyUnavailable)
    else
      SaveAndAnswer(Start(c, tokens.value.0, tokens.value.1, r, now),
                    Codes(tokens.value.0, tokens.value.1, ACTIVATION_TTL / SECOND, POLLING_INTERVAL / SECOND))
  }

  /** What is checked before an Owner-signed request is recorded. */
  function OwnerRequestFault(c: Core, schema: string, version: ClientVersion, owner: string, requestID: string, message: Message,
                             signature: Signature<Message>): Option<FaultCode> {
    if c.fabric == "" then Some(OwnerNotInitialized)
    else if VersionFault(schema, version).Some? then VersionFault(schema, version)
    else OwnerFault(c, owner, requestID, message, signature)
  }

  /** `later` is the second clock reading, for the expiry check. */
  function ApprovePlan(c: Core, r: Approval, now: int, later: int): Plan {
    var refused := OwnerRequestFault(c, r.schema, r.version, r.owner, r.requestID, ApprovalOf(r), r.signature);
    if refused.Some? then Refuse(c, refused.value)
    else
      var checked := CheckRate(AcceptOwnerID(c, r.requestID), now);
      After(checked, SettlePlan(checked, r, now, later))
  }

  function SettlePlan(c: Core, r: Approval, now: int, later: int): Plan {
    if c.attempts >= MAX_CODE_ATTEMPTS then Refuse(c, UserCodeRateLimited)
    else if r.userCode !in c.userCodes then SaveAndAnswer(CountWrongCode(c, now), Fault(InvalidUserCode))
    else
      var code := c.userCodes[r.userCode];
      if code !in c.activations || later >= c.activations[code].expiresAt then SaveAndAnswer(Drop(c, code), Fault(ActivationExpired))
      else if c.activations[code].status != PENDING then Refuse(c, ActivationNotPending)
      else SaveAndAnswer(Approve(c, code, r, later), Approved(c.activations[code].device, c.activations[code].name))
  }

  function PollFault(c: Core, r: Poll): Option<FaultCode> {
    if c.fabric == "" then Some(OwnerNotInitialized)
    else if VersionFault(r.schema, r.version).Some? then VersionFault(r.schema, r.version)
    else if r.code !in c.activations then Some(InvalidDeviceCode)
    else None
  }

  function PollPlan(c: Core, r: Poll, now: int): Plan {
    var refused := PollFault(c, r);
    if refused.Some? then Refuse(c, refused.value)
    else if now >= c.activations[r.code].expiresAt then SaveAndAnswer(Drop(c, r.code), Fault(ActivationExpired))
    else if TooSoon(c.activations[r.code], now) then SaveAndAnswer(Polled(c, r.code, now), Fault(SlowDown))
    else if c.activations[r.code].status == PENDING then SaveAndAnswer(Polled(c, r.code, now), Fault(AuthorizationPending))
    else if c.activations[r.code].status != APPROVED then Refuse(Polled(c, r.code, now), ActivationDenied)
    else
      SaveAndAnswer(Activate(Polled(c, r.code, now), r.code, now),
                    NowActive(c.fabric, c.activations[r.code].device, c.directoryVersion + 1, c.grantVersion))
  }

  function RevokePlan(c: Core, r: Revocation): Plan {
    var refused := OwnerRequestFault(c, r.schema, r.version, r.owner, r.requestID, RevocationOf(r), r.signature);
    if refused.Some? then Refuse(c, refused.value)
    else
      var recorded := AcceptOwnerID(c, r.requestID);
      After(recorded, RevokeRecorded(recorded, r))
  }

  function RevokeRecorded(c: Core, r: Revocation): Plan {
    if r.device == c.owner then Refuse(c, OwnerDeviceRequiresRecovery)
    else if r.device !in c.devices then Refuse(c, DeviceNotFound)
    else if c.devices[r.device].status == REVOKED then Refuse(c, DeviceAlreadyRevoked)
    else SaveAndAnswer(Revoke(c, r.device, r.signature), NowRevoked(r.device, c.directoryVersion + 1, c.grantVersion + 1))
  }

  function SyncFault(c: Core, r: Sync): Option<FaultCode> {
    if c.fabric == "" then Some(OwnerNotInitialized)
    else if VersionFault(r.schema, r.version).Some? then VersionFault(r.schema, r.version)
    else if !ValidRequestID(r.requestID) then Some(InvalidRequestID)
    else if r.device !in c.devices then Some(DeviceNotFound)
    else if !Verifies(c.devices[r.device].key, SyncMessage(r.device, r.requestID, r.version), r.signature) then Some(InvalidSignature)
    else if c.devices[r.device].status == REVOKED then Some(DeviceRevoked)
    else None
  }

  function SyncPlan(c: Core, r: Sync, stamp: int): Plan {
    var refused := SyncFault(c, r);
    if refused.Some? then Refuse(c, refused.value)
    else
      var ready := OpenBucket(c, r.device);
      if r.requestID in Bucket(ready, r.device) then Refuse(ready, RequestReplayed)
      else
        SaveAndAnswer(AcceptDeviceID(ready, r.device, r.requestID, stamp),
                      Versions(c.fabric, r.device, c.devices[r.device].status, c.directoryVersion, c.grantVersion))
  }

  function PublicationFault(c: Core, r: Publication): Option<FaultCode> {
    if c.fabric == "" then Some(OwnerNotInitialized)
    else if VersionFault(r.schema, r.version).Some? then VersionFault(r.schema, r.version)
    else if !ValidRequestID(r.requestID) then Some(InvalidRequestID)
    else if r.device !in c.devices then Some(DeviceNotFound)
    else if c.devices[r.device].status != ACTIVE then Some(DeviceRevoked)
    else if !Verifies(c.devices[r.device].key, PublishMessage(r.device, r.binding.signature, r.requestID, r.version), r.signature) then
      Some(InvalidSignature)
    else None
  }

  /** Whether a binding may replace what is published under its key. */
  function BindingFault(c: Core, r: Publication): Option<FaultCode>
    requires r.device in c.devices
  {
    var b, key := r.binding, (r.binding.device, r.binding.capability);
    if r.requestID in Bucket(c, r.device) then Some(RequestReplayed)
    else if b.device != r.device || b.fabric != c.fabric || !ValidIdentifier(b.capability, LONGEST_ENROLLMENT_IDENTIFIER) then
      Some(CapabilityIdentityMismatch)
    else if !ShellBinding.Verify(r.device, c.devices[r.device].key, b.capability, c.fabric, b) then Some(InvalidCapabilityBinding)
    else if key in c.bindings && b.version < c.bindings[key].version then Some(CapabilityBindingStale)
    else if key in c.bindings && b.version == c.bindings[key].version && b.signature != c.bindings[key].signature then
      Some(CapabilityBindingConflict)
    else if key !in c.bindings && |c.bindings| >= MAX_PUBLISHED_BINDINGS then Some(CapabilityCapacityReached)
    else if Changes(c, b) && c.directoryVersion == MAX_UINT64 then Some(DirectoryVersionExhausted)
    else None
  }

  predicate Changes(c: Core, b: Binding) {
    (b.device, b.capability) !in c.bindings || b.version > c.bindings[(b.device, b.capability)].version
  }

  function PublishPlan(c: Core, r: Publication, stamp: int): Plan {
    var refused := PublicationFault(c, r);
    if refused.Some? then Refuse(c, refused.value)
    else
      var ready := OpenBucket(c, r.device);
      var unfit := BindingFault(ready, r);
      if unfit.Some? then Refuse(ready, unfit.value) else FitPlan(ready, r, stamp)
  }

  function FitPlan(c: Core, r: Publication, stamp: int): Plan {
    var recorded := AcceptDeviceID(c, r.device, r.requestID, stamp);
    if Changes(c, r.binding) then
      SaveAndAnswer(Bind(recorded, r.binding), Published(r.device, r.binding.capability, c.directoryVersion + 1, true))
    else SaveAndAnswer(recorded, Published(r.device, r.binding.capability, c.directoryVersion, false))
  }

  function ListPlan(c: Core, r: Listing): Plan {
    var refused := OwnerRequestFault(c, r.schema, r.version, r.owner, r.requestID, ListingOf(r), r.signature);
    if refused.Some? then Refuse(c, refused.value)
    else SaveAndAnswer(AcceptOwnerID(c, r.requestID), Listed(c.fabric, c.directoryVersion))
  }
}
