/** Whole runs of the Manager: any calls in any order, failed saves and restarts. */
module EnrollmentRuns {
  import opened Common
  import opened Identity
  import opened Snapshots
  import opened Enrollment
  import opened EnrollmentHistory
  import opened EnrollmentSafety
  import opened EnrollmentPersistence
  import opened EnrollmentManager
  import ShellBinding
  import SnapshotStore

  datatype Call =
    | InitializeCall(initialization: Initialization)
    | BeginCall(authorization: Authorization, now: Clock, stamp: Clock, tokens: Option<(Code, Code)>)
    | ApproveCall(approval: Approval, now: Clock, later: Clock)
    | PollCall(poll: Poll, now: Clock)
    | RevokeCall(revocation: Revocation)
    | SyncCall(sync: Sync, stamp: Clock)
    | PublishCall(publication: Publication, stamp: Clock)
    | ListCall(listing: Listing)

  function PlanOf(c: Core, call: Call): Plan {
    match call
    case InitializeCall(r) => InitializePlan(c, r)
    case BeginCall(r, now, stamp, tokens) => BeginPlan(c, r, now, stamp, tokens)
    case ApproveCall(r, now, later) => ApprovePlan(c, r, now, later)
    case PollCall(r, now) => PollPlan(c, r, now)
    case RevokeCall(r) => RevokePlan(c, r)
    case SyncCall(r, stamp) => SyncPlan(c, r, stamp)
    case PublishCall(r, stamp) => PublishPlan(c, r, stamp)
    case ListCall(r) => ListPlan(c, r)
  }

  /** Random codes are never repeated. */
  predicate TokensFresh(c: Core, call: Call) {
    call.BeginCall? ==> Fresh(c, call.tokens)
  }

  lemma PlanKeeps(c: Core, call: Call)
    requires Inv(c) && TokensFresh(c, call)
    ensures Keeps(PlanOf(c, call))
  {
    hide Inv, Keeps, Fresh, InitializePlan, BeginPlan, ApprovePlan, PollPlan, RevokePlan, SyncPlan, PublishPlan, ListPlan;
    match call
    case InitializeCall(r) => InitializePlanKeeps(c, r);
    case BeginCall(r, now, stamp, tokens) => BeginPlanKeeps(c, r, now, stamp, tokens);
    case ApproveCall(r, now, later) => ApprovePlanKeeps(c, r, now, later);
    case PollCall(r, now) => PollPlanKeeps(c, r, now);
    case RevokeCall(r) => RevokePlanKeeps(c, r);
    case SyncCall(r, stamp) => SyncPlanKeeps(c, r, stamp);
    case PublishCall(r, stamp) => PublishPlanKeeps(c, r, stamp);
    case ListCall(r) => ListPlanKeeps(c, r);
  }

  /** The tables in memory, whether a save has failed, and the tables last saved. */
  datatype World = World(core: Core, failed: bool, stored: Option<Core>)

  datatype Action = Called(call: Call, reply: Reply) | Restarted(stamps: Readings, later: Clock)

  ghost predicate Happens(w: World, action: Action, v: World) {
    match action
    case Called(call, reply) =>
      && (!w.failed ==> TokensFresh(w.core, call))
      && Outcome(w.failed, PlanOf(w.core, call), w.core, w.stored, v.core, v.failed, v.stored, reply)
    case Restarted(stamps, later) =>
      && !v.failed && v.core == StateAfterOpen(w.stored, stamps, later)
      && (v.stored == w.stored || v.stored == Some(v.core)) && InSync(v.stored, v.core)
  }

  /** What the Manager's Valid says of its tables. */
  ghost predicate Sound(w: World) {
    && (w.stored.Some? ==> Inv(w.stored.value))
    && (!w.failed ==> Inv(w.core) && InSync(w.stored, w.core))
  }

  ghost predicate IsRun(worlds: seq<World>, actions: seq<Action>) {
    && |worlds| == |actions| + 1 && worlds[0] == World(Empty(), false, None)
    && forall i, j | 0 <= i < |actions| && j == i + 1 :: Happens(worlds[i], actions[i], worlds[j])
  }

  // ---- how plans end, and what they add to the history ------------------------------------

  function LastSave(plan: Plan): Core
    requires plan.saves != []
  {
    plan.saves[|plan.saves| - 1]
  }

  /** The tables end as last saved, up to an empty bucket when nothing is saved. */
  predicate Ends(c: Core, plan: Plan) {
    if plan.saves == [] then SameDurably(c, plan.final) && (c.fabric == "" ==> plan.final == c) else plan.final == LastSave(plan)
  }

  predicate EndsExactly(c: Core, plan: Plan) {
    plan.final == if plan.saves == [] then c else LastSave(plan)
  }

  /** What a call may add to the history beside ordinary events: readings of its clock
      by the rate limit, the activation of one Device and the revocation of one. */
  datatype Cause = Cause(clock: Option<int>, activates: Option<string>, revokes: Option<string>)

  const QUIET := Cause(None, None, None)

  function CauseOf(call: Call, reply: Reply): Cause {
    Cause(if call.ApproveCall? then Some(call.now) else None,
          if call.PollCall? && reply.NowActive? then Some(reply.device) else None,
          if call.RevokeCall? && reply.NowRevoked? then Some(reply.device) else None)
  }

  /** What a call has done before its last save: no Device has changed its status yet. */
  function Unsettled(cause: Cause): Cause {
    Cause(cause.clock, None, None)
  }

  predicate Explained(cause: Cause, e: Event) {
    match e
    case WindowOpened(at) => cause.clock == Some(at)
    case WrongCode(at) => cause.clock == Some(at)
    case Activated(_, device, _, _) => cause.activates == Some(device)
    case RevokedBy(device, _) => cause.revokes == Some(device)
    case _ => true
  }

  /** Nothing is taken back, and what is added has this cause. */
  predicate Continues(before: seq<Event>, after: seq<Event>, cause: Cause) {
    before <= after && forall k | |before| <= k < |after| :: Explained(cause, after[k])
  }

  predicate Grows(c: Core, plan: Plan, cause: Cause) {
    && Continues(c.log, plan.final.log, cause)
    && forall k | 0 <= k < |plan.saves| ::
         Continues(c.log, plan.saves[k].log, if k == |plan.saves| - 1 then cause else Unsettled(cause))
  }

  lemma ContinuesOn(a: seq<Event>, b: seq<Event>, c: seq<Event>, cause: Cause)
    requires Continues(a, b, cause) && Continues(b, c, cause)
    ensures Continues(a, c, cause)
  {
    hide Explained;
  }

  lemma SettlesIn(a: seq<Event>, b: seq<Event>, cause: Cause)
    requires Continues(a, b, Unsettled(cause))
    ensures Continues(a, b, cause)
  {
    assert forall e | Explained(Unsettled(cause), e) :: Explained(cause, e);
  }

  lemma OneSaveGrows(c: Core, d: Core, answer: Reply, cause: Cause)
    requires Continues(c.log, d.log, cause)
    ensures Grows(c, SaveAndAnswer(d, answer), cause) && EndsExactly(c, SaveAndAnswer(d, answer)) && Ends(c, SaveAndAnswer(d, answer))
  {
  }

  lemma RefusalGrows(c: Core, code: FaultCode, cause: Cause)
    ensures Grows(c, Refuse(c, code), cause) && EndsExactly(c, Refuse(c, code)) && Ends(c, Refuse(c, code))
  {
  }

  lemma RestGrows(c: Core, d: Core, rest: Plan, cause: Cause)
    requires Continues(c.log, d.log, Unsettled(cause)) && Grows(d, rest, cause) && EndsExactly(d, rest)
    ensures Grows(c, After(d, rest), cause) && EndsExactly(c, After(d, rest)) && Ends(c, After(d, rest))
  {
    hide Continues, Unsettled;
    var plan := After(d, rest);
    SettlesIn(c.log, d.log, cause);
    ContinuesOn(c.log, d.log, rest.final.log, cause);
    forall k | 0 <= k < |plan.saves|
      ensures Continues(c.log, plan.saves[k].log, if k == |plan.saves| - 1 then cause else Unsettled(cause))
    {
      if k > 0 {
        assert plan.saves[k] == rest.saves[k - 1];
        ContinuesOn(c.log, d.log, rest.saves[k - 1].log, if k == |plan.saves| - 1 then cause else Unsettled(cause));
      }
    }
  }

  lemma BeginGrows(c: Core, r: Authorization, now: int, stamp: int, tokens: Option<(Code, Code)>)
    ensures Grows(c, BeginPlan(c, r, now, stamp, tokens), QUIET) && Ends(c, BeginPlan(c, r, now, stamp, tokens))
  {
    hide AuthorizationFault, Prune, Prunes, AdmitPlan, Grows, Ends, EndsExactly, Refuse, After, Continues;
    if AuthorizationFault(c, r).Some? {
      RefusalGrows(c, AuthorizationFault(c, r).value, QUIET);
    } else if Prunes(c, now) {
      PruneGrows(c, now);
      AdmitGrows(Prune(c, now), r, now, stamp, tokens);
      RestGrows(c, Prune(c, now), AdmitPlan(Prune(c, now), r, now, stamp, tokens), QUIET);
    } else {
      AdmitGrows(c, r, now, stamp, tokens);
      ExactEnds(c, AdmitPlan(c, r, now, stamp, tokens));
    }
  }

  lemma ExactEnds(c: Core, plan: Plan)
    requires EndsExactly(c, plan)
    ensures Ends(c, plan)
  {
  }

  lemma PruneGrows(c: Core, now: int)
    ensures Continues(c.log, Prune(c, now).log, QUIET)
  {
    hide StaleBuckets;
  }

  lemma AdmitGrows(c: Core, r: Authorization, now: int, stamp: int, tokens: Option<(Code, Code)>)
    ensures Grows(c, AdmitPlan(c, r, now, stamp, tokens), QUIET) && EndsExactly(c, AdmitPlan(c, r, now, stamp, tokens))
  {
    hide CapacityFault, AcceptDeviceID, Grows, EndsExactly, Ends, Refuse, After, SaveAndAnswer, Start, Continues;
    if CapacityFault(c, r).Some? {
      RefusalGrows(c, CapacityFault(c, r).value, QUIET);
    } else {
      var recorded := AcceptDeviceID(c, r.device, r.requestID, stamp);
      AcceptGrows(c, r.device, r.requestID, stamp);
      if tokens.None? {
        RefusalGrows(recorded, EntropyUnavailable, QUIET);
      } else {
        StartGrows(recorded, tokens.value.0, tokens.value.1, r, now);
        OneSaveGrows(recorded, Start(recorded, tokens.value.0, tokens.value.1, r, now),
                     Codes(tokens.value.0, tokens.value.1, ACTIVATION_TTL / SECOND, POLLING_INTERVAL / SECOND), QUIET);
      }
      RestGrows(c, recorded, StartPlan(recorded, r, now, tokens), QUIET);
    }
  }

  lemma AcceptGrows(c: Core, device: string, id: string, stamp: int)
    ensures AcceptDeviceID(c, device, id, stamp).log == c.log + [DeviceAccepted(device, id)]
    ensures Continues(c.log, AcceptDeviceID(c, device, id, stamp).log, QUIET)
  {
    hide Remembered, Queued;
  }

  lemma StartGrows(c: Core, code: Code, userCode: Code, r: Authorization, now: int)
    ensures Start(c, code, userCode, r, now).log == c.log + [Began(code, userCode, r.device, r.key, now, now + ACTIVATION_TTL, r.signature)]
    ensures Continues(c.log, Start(c, code, userCode, r, now).log, QUIET)
  {
  }

  lemma ApproveGrows(c: Core, r: Approval, now: int, later: int)
    ensures Grows(c, ApprovePlan(c, r, now, later), At(now)) && Ends(c, ApprovePlan(c, r, now, later))
  {
    hide OwnerRequestFault, AcceptOwnerID, CheckRate, SettlePlan, Grows, Ends, EndsExactly, Refuse, After, Continues;
    var refused := OwnerRequestFault(c, r.schema, r.version, r.owner, r.requestID, ApprovalOf(r), r.signature);
    if refused.Some? {
      RefusalGrows(c, refused.value, At(now));
    } else {
      var checked := CheckRate(AcceptOwnerID(c, r.requestID), now);
      CheckedGrows(c, r.requestID, now);
      SettleGrows(checked, r, now, later);
      RestGrows(c, checked, SettlePlan(checked, r, now, later), At(now));
    }
  }

  /** The cause of an approval. */
  function At(now: int): Cause { Cause(Some(now), None, None) }

  lemma CheckedGrows(c: Core, id: string, now: int)
    ensures Continues(c.log, AcceptOwnerID(c, id).log, QUIET)
    ensures Continues(c.log, CheckRate(AcceptOwnerID(c, id), now).log, At(now))
    ensures AcceptOwnerID(c, id).log <= CheckRate(AcceptOwnerID(c, id), now).log
  {
    hide Remembered, Queued;
  }

  lemma SettleGrows(c: Core, r: Approval, now: int, later: int)
    ensures Grows(c, SettlePlan(c, r, now, later), At(now)) && EndsExactly(c, SettlePlan(c, r, now, later))
  {
    hide Grows, EndsExactly, Ends, Refuse, SaveAndAnswer, CountWrongCode, Drop, Approve, Continues;
    RefusalGrows(c, UserCodeRateLimited, At(now));
    RefusalGrows(c, ActivationNotPending, At(now));
    if c.attempts < MAX_CODE_ATTEMPTS {
      if r.userCode !in c.userCodes {
        SettleSteps(c, c.userCodes, r, now, later);
        OneSaveGrows(c, CountWrongCode(c, now), Fault(InvalidUserCode), At(now));
      } else {
        var code := c.userCodes[r.userCode];
        SettleSteps(c, c.userCodes, r, now, later);
        OneSaveGrows(c, Drop(c, code), Fault(ActivationExpired), At(now));
        if code in c.activations {
          OneSaveGrows(c, Approve(c, code, r, later), Approved(c.activations[code].device, c.activations[code].name), At(now));
        }
      }
    }
  }

  lemma SettleSteps(c: Core, userCodes: map<Code, Code>, r: Approval, now: int, later: int)
    ensures Continues(c.log, CountWrongCode(c, now).log, At(now))
    ensures r.userCode in userCodes ==> Continues(c.log, Drop(c, userCodes[r.userCode]).log, At(now))
    ensures r.userCode in userCodes && userCodes[r.userCode] in c.activations ==>
              Continues(c.log, Approve(c, userCodes[r.userCode], r, later).log, At(now))
  {
  }

  lemma PollGrows(c: Core, r: Poll, now: int)
    requires Inv(c)
    ensures Grows(c, PollPlan(c, r, now), PollCause(PollPlan(c, r, now).reply)) && Ends(c, PollPlan(c, r, now))
  {
    hide Inv, PollFault, Grows, Ends, EndsExactly, Refuse, SaveAndAnswer, Drop, Polled, Activate, Continues;
    var plan := PollPlan(c, r, now);
    if PollFault(c, r).Some? {
      RefusalGrows(c, PollFault(c, r).value, PollCause(plan.reply));
    } else {
      Pollable(c, r);
      PollSteps(c, r.code, now, PollCause(plan.reply));
      SaveAndAnswerIs(Drop(c, r.code), Fault(ActivationExpired));
      SaveAndAnswerIs(Polled(c, r.code, now), Fault(SlowDown));
      SaveAndAnswerIs(Polled(c, r.code, now), Fault(AuthorizationPending));
      SaveAndAnswerIs(Activate(Polled(c, r.code, now), r.code, now),
                      NowActive(c.fabric, c.activations[r.code].device, c.directoryVersion + 1, c.grantVersion));
      OneSaveGrows(c, Drop(c, r.code), plan.reply, PollCause(plan.reply));
      OneSaveGrows(c, Polled(c, r.code, now), plan.reply, PollCause(plan.reply));
      if plan.reply.NowActive? {
        OneSaveGrows(c, Activate(Polled(c, r.code, now), r.code, now), plan.reply, PollCause(plan.reply));
      }
    }
  }

  /** The cause of a poll with this answer. */
  function PollCause(reply: Reply): Cause {
    Cause(None, if reply.NowActive? then Some(reply.device) else None, None)
  }

  lemma SaveAndAnswerIs(c: Core, reply: Reply)
    ensures SaveAndAnswer(c, reply).reply == reply
  {
  }

  lemma Pollable(c: Core, r: Poll)
    requires Inv(c) && PollFault(c, r).None?
    ensures r.code in c.activations && c.activations[r.code].status in {PENDING, APPROVED}
  {
    hide Histories;
    assert ActivationOK(c.activations[r.code], r.code);
  }

  lemma PollSteps(c: Core, code: Code, now: int, cause: Cause)
    requires code in c.activations
    ensures Continues(c.log, Drop(c, code).log, cause) && Continues(c.log, Polled(c, code, now).log, cause)
    ensures code in Polled(c, code, now).activations
    ensures var d := Activate(Polled(c, code, now), code, now);
            && d.log == c.log + [Activated(code, c.activations[code].device, c.activations[code].key, now)]
            && (cause.activates == Some(c.activations[code].device) ==> Continues(c.log, d.log, cause))
  {
  }

  lemma RevokeGrows(c: Core, r: Revocation)
    ensures Grows(c, RevokePlan(c, r), RevokeCause(RevokePlan(c, r).reply)) && Ends(c, RevokePlan(c, r))
  {
    hide OwnerRequestFault, AcceptOwnerID, RevokeRecorded, Grows, Ends, EndsExactly, Refuse, After, Continues;
    var refused := OwnerRequestFault(c, r.schema, r.version, r.owner, r.requestID, RevocationOf(r), r.signature);
    if refused.Some? {
      RefusalGrows(c, refused.value, RevokeCause(RevokePlan(c, r).reply));
    } else {
      var recorded := AcceptOwnerID(c, r.requestID);
      CheckedGrows(c, r.requestID, 1);
      RevokedGrows(recorded, r);
      RestGrows(c, recorded, RevokeRecorded(recorded, r), RevokeCause(RevokeRecorded(recorded, r).reply));
      AfterReply(recorded, RevokeRecorded(recorded, r));
    }
  }

  /** The cause of a revocation with this answer. */
  function RevokeCause(reply: Reply): Cause {
    Cause(None, None, if reply.NowRevoked? then Some(reply.device) else None)
  }

  lemma AfterReply(c: Core, rest: Plan)
    ensures After(c, rest).reply == rest.reply
  {
  }

  lemma RevokedGrows(c: Core, r: Revocation)
    ensures Grows(c, RevokeRecorded(c, r), RevokeCause(RevokeRecorded(c, r).reply)) && EndsExactly(c, RevokeRecorded(c, r))
  {
  }

  lemma SyncGrows(c: Core, r: Sync, stamp: int)
    ensures Grows(c, SyncPlan(c, r, stamp), QUIET) && Ends(c, SyncPlan(c, r, stamp))
  {
    hide SyncFault, AcceptDeviceID, Ends, Grows, EndsExactly, SaveAndAnswer, Continues;
    if SyncFault(c, r).Some? {
      RefusalGrows(c, SyncFault(c, r).value, QUIET);
    } else {
      Syncable(c, r);
      var ready := OpenBucket(c, r.device);
      ReadyGrows(c, r.device, RequestReplayed);
      AcceptGrows(ready, r.device, r.requestID, stamp);
      OneSaveGrows(c, AcceptDeviceID(ready, r.device, r.requestID, stamp),
                   Versions(c.fabric, r.device, c.devices[r.device].status, c.directoryVersion, c.grantVersion), QUIET);
    }
  }

  lemma ReadyGrows(c: Core, device: string, code: FaultCode)
    ensures OpenBucket(c, device).log == c.log && SameDurably(c, OpenBucket(c, device))
    ensures c.fabric != "" ==> Grows(c, Refuse(OpenBucket(c, device), code), QUIET) && Ends(c, Refuse(OpenBucket(c, device), code))
  {
  }

  lemma PublishGrows(c: Core, r: Publication, stamp: int)
    ensures Grows(c, PublishPlan(c, r, stamp), QUIET) && Ends(c, PublishPlan(c, r, stamp))
  {
    hide PublicationFault, BindingFault, OpenBucket, AcceptDeviceID, Bind, Ends, Grows, EndsExactly, Refuse, FitPlan;
    if PublicationFault(c, r).Some? {
      RefusalGrows(c, PublicationFault(c, r).value, QUIET);
    } else {
      Publishable(c, r);
      OpenFrame(c, r.device);
      var ready := OpenBucket(c, r.device);
      if BindingFault(ready, r).Some? {
        ReadyGrows(c, r.device, BindingFault(ready, r).value);
      } else {
        FitGrows(c, r, stamp);
      }
    }
  }

  lemma FitGrows(c: Core, r: Publication, stamp: int)
    ensures Grows(c, FitPlan(OpenBucket(c, r.device), r, stamp), QUIET) && Ends(c, FitPlan(OpenBucket(c, r.device), r, stamp))
  {
    hide OpenBucket, AcceptDeviceID, Bind, Ends, Grows, EndsExactly, SaveAndAnswer, Changes, Continues;
    ReadyGrows(c, r.device, RequestReplayed);
    var ready := OpenBucket(c, r.device);
    var recorded := AcceptDeviceID(ready, r.device, r.requestID, stamp);
    AcceptGrows(ready, r.device, r.requestID, stamp);
    BindGrows(recorded, r.binding);
    ContinuesOn(ready.log, recorded.log, Bind(recorded, r.binding).log, QUIET);
    OneSaveGrows(c, recorded, Published(r.device, r.binding.capability, ready.directoryVersion, false), QUIET);
    OneSaveGrows(c, Bind(recorded, r.binding), Published(r.device, r.binding.capability, ready.directoryVersion + 1, true), QUIET);
  }

  lemma BindGrows(c: Core, b: Binding)
    ensures Bind(c, b).log == c.log + [BindingChanged(b.device, b.capability)] && Continues(c.log, Bind(c, b).log, QUIET)
  {
  }

  lemma PlanGrows(c: Core, call: Call)
    requires Inv(c)
    ensures Grows(c, PlanOf(c, call), CauseOf(call, PlanOf(c, call).reply)) && Ends(c, PlanOf(c, call))
  {
    hide Inv, Grows, Ends, Continues, BeginPlan, ApprovePlan, PollPlan, RevokePlan, SyncPlan, PublishPlan, OwnerRequestFault,
      InitializationFault, AcceptOwnerID, InstallOwner, Refuse, SaveAndAnswer;
    match call
    case InitializeCall(r) =>
      if InitializationFault(c, r).Some? {
        RefusalGrows(c, InitializationFault(c, r).value, QUIET);
      } else {
        InstallGrows(c, r.fabric, r.owner, r.key);
        OneSaveGrows(c, InstallOwner(c, r.fabric, r.owner, r.key), Initialized(r.fabric, r.owner, 1), QUIET);
      }
    case BeginCall(r, now, stamp, tokens) => BeginGrows(c, r, now, stamp, tokens);
    case ApproveCall(r, now, later) => ApproveGrows(c, r, now, later);
    case PollCall(r, now) => PollGrows(c, r, now);
    case RevokeCall(r) => RevokeGrows(c, r);
    case SyncCall(r, stamp) => SyncGrows(c, r, stamp);
    case PublishCall(r, stamp) => PublishGrows(c, r, stamp);
    case ListCall(r) =>
      var refused := OwnerRequestFault(c, r.schema, r.version, r.owner, r.requestID, ListingOf(r), r.signature);
      if refused.Some? {
        RefusalGrows(c, refused.value, QUIET);
      } else {
        CheckedGrows(c, r.requestID, 1);
        OneSaveGrows(c, AcceptOwnerID(c, r.requestID), Listed(c.fabric, c.directoryVersion), QUIET);
      }
  }

  lemma InstallGrows(c: Core, fabric: string, owner: string, key: Key)
    ensures Continues(c.log, InstallOwner(c, fabric, owner, key).log, QUIET)
  {
  }

  // ---- runs ---------------------------------------------------------------------------------------

  function LogOf(stored: Option<Core>): seq<Event> {
    if stored.Some? then stored.value.log else []
  }

  function CauseOfAction(action: Action): Cause {
    match action
    case Called(call, reply) => CauseOf(call, reply)
    case Restarted(_, _) => QUIET
  }

  /** Every call and every restart keeps the worlds sound, and what was stored stays in
      the history for good; what is added is explained by the call and its answer. */
  lemma StepStaysSound(w: World, action: Action, v: World)
    requires Sound(w) && Happens(w, action, v)
    ensures Sound(v) && Continues(LogOf(w.stored), LogOf(v.stored), CauseOfAction(action))
  {
    hide Inv, PlanOf, TokensFresh, InSync, StateAfterOpen, Explained;
    match action
    case Called(call, reply) =>
      if !w.failed {
        PlanKeeps(w.core, call);
        PlanGrows(w.core, call);
        CallStaysSound(w, call, reply, v);
      }
    case Restarted(stamps, later) =>
      RestartStaysSound(w, stamps, later, v);
  }

  lemma CallStaysSound(w: World, call: Call, reply: Reply, v: World)
    requires Sound(w) && !w.failed && Happens(w, Called(call, reply), v)
    requires Keeps(PlanOf(w.core, call)) && Ends(w.core, PlanOf(w.core, call))
    requires Grows(w.core, PlanOf(w.core, call), CauseOf(call, PlanOf(w.core, call).reply))
    ensures Sound(v) && Continues(LogOf(w.stored), LogOf(v.stored), CauseOf(call, reply))
  {
    hide Inv, PlanOf, TokensFresh, Explained;
    var plan := PlanOf(w.core, call);
    StoredLog(w);
    if v.failed {
      var k :| 0 <= k < |plan.saves| && v.core == plan.saves[k] && v.stored == SavedUpTo(plan, w.stored, k);
      if k > 0 {
        assert Continues(w.core.log, plan.saves[k - 1].log, Unsettled(CauseOf(call, plan.reply)));
        assert Unsettled(CauseOf(call, plan.reply)) == CauseOf(call, reply);
      }
    }
  }

  lemma StoredLog(w: World)
    requires Sound(w) && !w.failed
    ensures LogOf(w.stored) == w.core.log
  {
  }

  lemma RestartStaysSound(w: World, stamps: Readings, later: Clock, v: World)
    requires Sound(w) && Happens(w, Restarted(stamps, later), v)
    ensures Sound(v) && Continues(LogOf(w.stored), LogOf(v.stored), QUIET)
  {
    hide Inv, Prune, Reopened;
    match w.stored
    case None =>
      EmptyIsSafe();
    case Some(c) =>
      ReopenedKeeps(c, stamps);
      ReopenedLog(c, stamps);
      PruneGrows(Reopened(c, stamps), later);
      if c.fabric != "" {
        PruneKeeps(Reopened(c, stamps), later);
      } else {
        NothingToPrune(c, stamps, later);
      }
  }

  lemma ReopenedLog(c: Core, stamps: Readings)
    ensures Reopened(c, stamps).log == c.log && Reopened(c, stamps).fabric == c.fabric
  {
  }

  lemma {:induction false} RunsStaySound(worlds: seq<World>, actions: seq<Action>, n: nat)
    requires IsRun(worlds, actions) && n < |worlds|
    ensures Sound(worlds[n])
  {
    hide Happens, Inv;
    if n == 0 {
      EmptyIsSafe();
      assert Sound(World(Empty(), false, None));
    } else {
      RunsStaySound(worlds, actions, n - 1);
      StepStaysSound(worlds[n - 1], actions[n - 1], worlds[n]);
    }
  }

  /** What was acknowledged is never forgotten: each stored history starts with every
      earlier one, across failures and restarts. */
  lemma {:induction false} StoredHistoryOnlyGrows(worlds: seq<World>, actions: seq<Action>, i: nat, j: nat)
    requires IsRun(worlds, actions) && i <= j < |worlds|
    ensures LogOf(worlds[i].stored) <= LogOf(worlds[j].stored)
    decreases j - i
  {
    hide Happens, Sound;
    if i < j {
      StoredHistoryOnlyGrows(worlds, actions, i, j - 1);
      RunsStaySound(worlds, actions, j - 1);
      StepStaysSound(worlds[j - 1], actions[j - 1], worlds[j]);
    }
  }

  /** The tables of a world: those last saved and, unless a save has failed, those in memory. */
  predicate Holds(w: World, c: Core) {
    w.stored == Some(c) || (!w.failed && w.core == c)
  }

  lemma HeldIsSafe(worlds: seq<World>, actions: seq<Action>, n: nat, c: Core)
    requires IsRun(worlds, actions) && n < |worlds| && Holds(worlds[n], c)
    ensures Inv(c)
  {
    hide IsRun, Inv, InSync;
    RunsStaySound(worlds, actions, n);
  }

  /** In every world of every run the tables agree with each other. */
  lemma TablesAgree(worlds: seq<World>, actions: seq<Action>, n: nat, c: Core)
    requires IsRun(worlds, actions) && n < |worlds| && Holds(worlds[n], c)
    ensures forall u | u in c.userCodes :: c.userCodes[u] in c.activations && c.activations[c.userCodes[u]].userCode == u
    ensures forall code | code in c.activations :: c.activations[code].userCode in c.userCodes
    ensures forall a, b | a in c.activations && b in c.activations && a != b :: c.activations[a].device != c.activations[b].device
    ensures |c.activations| <= 256
    ensures forall code | code in c.activations && c.activations[code].device in c.devices ::
              c.devices[c.activations[code].device].status == REVOKED
    ensures c.fabric != "" ==> c.owner in c.devices && c.devices[c.owner].status == ACTIVE && c.devices[c.owner].key == c.ownerKey
    ensures forall k | k in c.bindings :: k.0 in c.devices && c.devices[k.0].status == ACTIVE
    ensures forall k | k in c.bindings :: ShellBinding.Verify(k.0, c.devices[k.0].key, k.1, c.fabric, c.bindings[k])
  {
    hide IsRun, Holds, Histories, ShellBinding.Verify, ValidKey;
    HeldIsSafe(worlds, actions, n, c);
    forall k | k in c.bindings
      ensures k.0 in c.devices && c.devices[k.0].status == ACTIVE
              && ShellBinding.Verify(k.0, c.devices[k.0].key, k.1, c.fabric, c.bindings[k])
    {
      assert BindingOK(c, k);
    }
  }

  /** The replay tables are exactly the window of the history they stand for. */
  lemma ReplayTablesAreWindows(worlds: seq<World>, actions: seq<Action>, n: nat, c: Core, device: string)
    requires IsRun(worlds, actions) && n < |worlds| && Holds(worlds[n], c)
    ensures c.ownerOrder == LastN(OwnerHistory(c.log), 4096) && c.ownerIDs == Elems(c.ownerOrder) && NoDup(c.ownerOrder)
    ensures Order(c, device) == LastN(DeviceHistory(c.log, device), 1024) && Bucket(c, device) == Elems(Order(c, device))
    ensures NoDup(Order(c, device))
  {
    hide IsRun, Holds, Tables, Lawful;
    HeldIsSafe(worlds, actions, n, c);
    OwnerIDsNeverInWindow(c.log);
    WindowHasNoDuplicates(OwnerHistory(c.log), MAX_OWNER_REPLAY_IDS);
    DeviceIDsNeverInWindow(c.log, device);
    WindowHasNoDuplicates(DeviceHistory(c.log, device), MAX_DEVICE_REPLAY_IDS);
    assert BucketOK(c, device);
  }

  lemma VersionsCount(worlds: seq<World>, actions: seq<Action>, n: nat, c: Core)
    requires IsRun(worlds, actions) && n < |worlds| && Holds(worlds[n], c) && c.fabric != ""
    ensures c.directoryVersion == 1 + DirectoryChanges(c.log) && c.grantVersion == 1 + Revocations(c.log)
  {
    hide IsRun, Holds, Tables, Lawful;
    HeldIsSafe(worlds, actions, n, c);
  }

  /** An active Device other than the Owner was begun, approved by the Owner and polled,
      in that order and in time, under the key it has now. */
  lemma ActiveDevicesWereApproved(worlds: seq<World>, actions: seq<Action>, n: nat, c: Core, device: string)
    returns (i: nat, j: nat, k: nat)
    requires IsRun(worlds, actions) && n < |worlds| && Holds(worlds[n], c)
    requires device in c.devices && c.devices[device].status == ACTIVE && device != c.owner
    ensures k < |c.log| && c.log[k].Activated? && c.log[k].device == device && c.log[k].key == c.devices[device].key
    ensures Traced(c.log, i, j, k)
    ensures forall m | k < m < |c.log| :: !(c.log[m].RevokedBy? && c.log[m].device == device)
  {
    hide IsRun, Holds, Tables, Lawful;
    HeldIsSafe(worlds, actions, n, c);
    InvTables(c);
    HasFabric(c, device);
    k := ActiveWasActivated(c.log, device);
    i, j := ActivationIsApproved(c.log, k);
    BegunUnderKey(c.log, i);
    DeviceMatchesKey(c, device);
    DeviceIDInjective(c.log[k].key, c.devices[device].key);
  }

  lemma DeviceMatchesKey(c: Core, device: string)
    requires Tables(c) && device in c.devices
    ensures DeviceID(c.devices[device].key) == device
  {
    assert DeviceOK(c.devices[device], device);
  }

  lemma BegunUnderKey(log: seq<Event>, i: nat)
    requires Lawful(log) && i < |log| && log[i].Began?
    ensures log[i].device == DeviceID(log[i].key)
  {
    hide Lawful;
    LawfulAt(log, i);
  }

  /** The Owner and its key are those of the initialization for good. */
  lemma OwnerIsOriginal(worlds: seq<World>, actions: seq<Action>, i: nat, j: nat)
    requires IsRun(worlds, actions) && i <= j < |worlds| && worlds[i].stored.Some? && worlds[i].stored.value.fabric != ""
    ensures worlds[j].stored.Some?
    ensures worlds[j].stored.value.owner == worlds[i].stored.value.owner && worlds[j].stored.value.ownerKey == worlds[i].stored.value.ownerKey
  {
    hide IsRun, Happens, Tables, Lawful, OwnerIn;
    RunsStaySound(worlds, actions, i);
    RunsStaySound(worlds, actions, j);
    StoredHistoryOnlyGrows(worlds, actions, i, j);
    var before, after := worlds[i].stored.value.log, LogOf(worlds[j].stored);
    OwnerNeedsEvent(before);
    assert after[..|before|] == before;
    OwnerStays(after, |before|);
  }

  lemma OwnerNeedsEvent(log: seq<Event>)
    requires OwnerIn(log).Some?
    ensures log != []
  {
  }

  /** The Manager's methods take exactly the steps runs are made of. */
  method Perform(m: Manager, call: Call) returns (reply: Reply)
    requires m.Valid() && (!m.failed ==> TokensFresh(m.State(), call))
    modifies m, m.store
    ensures m.Valid()
    ensures Happens(World(old(m.State()), old(m.failed), old(m.stored)), Called(call, reply), World(m.State(), m.failed, m.stored))
    ensures Writes(old(m.store.db), old(m.stored), Announced(reply), m.store.db, m.stored)
  {
    hide Outcome, InitializePlan, BeginPlan, ApprovePlan, PollPlan, RevokePlan, SyncPlan, PublishPlan, ListPlan, Fresh, Inv, Durable, InSync, Writes;
    match call
    case InitializeCall(r) => reply := m.InitializeOwner(r);
    case BeginCall(r, now, stamp, tokens) => reply := m.BeginDeviceAuthorization(r, now, stamp, tokens);
    case ApproveCall(r, now, later) => reply := m.ApproveDevice(r, now, later);
    case PollCall(r, now) => reply := m.PollDevice(r, now);
    case RevokeCall(r) => reply := m.RevokeDevice(r);
    case SyncCall(r, stamp) => reply := m.SyncVersion(r, stamp);
    case PublishCall(r, stamp) => reply := m.PublishShellCapability(r, stamp);
    case ListCall(r) =>
      var claims;
      reply, claims := m.ListShellCapabilities(r);
  }

  method Restart(store: Store, stamps: Readings, later: Clock, ghost w: World) returns (m: Manager?, ok: bool)
    requires store.Valid() && Durable(store.db, w.stored)
    modifies store
    ensures ok ==> m != null && fresh(m) && m.store == store && m.Valid()
                   && Happens(w, Restarted(stamps, later), World(m.State(), m.failed, m.stored))
                   && Writes(old(store.db), w.stored, None, store.db, m.stored)
    ensures !ok ==> store.Valid() && store.db == old(store.db)
    ensures store.faults == old(store.faults) ==> (ok <==> w.stored.None? || |w.stored.value.deviceOrder| <= 4096)
  {
    hide Inv, Durable, InSync, StateAfterOpen, Writes;
    m, ok := Manager.Open(store, stamps, later, w.stored);
  }

  // ---- answers and events --------------------------------------------------------------------------

  predicate OwnerRequest(call: Call) {
    call.ApproveCall? || call.RevokeCall? || call.ListCall?
  }

  function OwnerRequestID(call: Call): string
    requires OwnerRequest(call)
  {
    match call
    case ApproveCall(r, _, _) => r.requestID
    case RevokeCall(r) => r.requestID
    case ListCall(r) => r.requestID
  }

  /** Why an Owner-signed request is turned away before it is recorded. */
  function Refusal(c: Core, call: Call): Option<FaultCode>
    requires OwnerRequest(call)
  {
    match call
    case ApproveCall(r, _, _) => OwnerRequestFault(c, r.schema, r.version, r.owner, r.requestID, ApprovalOf(r), r.signature)
    case RevokeCall(r) => OwnerRequestFault(c, r.schema, r.version, r.owner, r.requestID, RevocationOf(r), r.signature)
    case ListCall(r) => OwnerRequestFault(c, r.schema, r.version, r.owner, r.requestID, ListingOf(r), r.signature)
  }

  /** An accepted Owner request is in the history from then on. */
  lemma OwnerAcceptanceIsLogged(c: Core, call: Call)
    requires OwnerRequest(call)
    ensures if Refusal(c, call).Some? then PlanOf(c, call) == Refuse(c, Refusal(c, call).value)
            else c.log + [OwnerAccepted(OwnerRequestID(call))] <= PlanOf(c, call).final.log
  {
    hide OwnerRequestFault, AcceptOwnerID, CheckRate, SettlePlan, RevokeRecorded, Grows, EndsExactly, Explained;
    match call
    case ApproveCall(r, now, later) =>
      CheckedGrows(c, r.requestID, now);
      AcceptedID(c, r.requestID);
      SettleGrows(CheckRate(AcceptOwnerID(c, r.requestID), now), r, now, later);
      FinalGrows(CheckRate(AcceptOwnerID(c, r.requestID), now), SettlePlan(CheckRate(AcceptOwnerID(c, r.requestID), now), r, now, later), At(now));
    case RevokeCall(r) =>
      AcceptedID(c, r.requestID);
      RevokedGrows(AcceptOwnerID(c, r.requestID), r);
      FinalGrows(AcceptOwnerID(c, r.requestID), RevokeRecorded(AcceptOwnerID(c, r.requestID), r),
                 RevokeCause(RevokeRecorded(AcceptOwnerID(c, r.requestID), r).reply));
    case ListCall(r) =>
      AcceptedID(c, r.requestID);
  }

  lemma AcceptedID(c: Core, id: string)
    ensures AcceptOwnerID(c, id).log == c.log + [OwnerAccepted(id)]
  {
    hide Remembered, Queued;
  }

  lemma FinalGrows(c: Core, plan: Plan, cause: Cause)
    requires Grows(c, plan, cause)
    ensures c.log <= plan.final.log
  {
  }

  /** Each answer of the protocol is the last thing in the history it leaves. */
  lemma AnswersAreLogged(c: Core, call: Call)
    ensures call.ApproveCall? && PlanOf(c, call).reply == Fault(InvalidUserCode) ==>
              PlanOf(c, call).final.log != [] && Last(PlanOf(c, call).final.log) == WrongCode(call.now)
    ensures call.ApproveCall? && PlanOf(c, call).reply.Approved? ==>
              PlanOf(c, call).final.log != [] && Last(PlanOf(c, call).final.log).ApprovalGiven?
              && Last(PlanOf(c, call).final.log).signature == call.approval.signature
    ensures call.PollCall? && PlanOf(c, call).reply.NowActive? ==>
              PlanOf(c, call).final.log != [] && Last(PlanOf(c, call).final.log).Activated?
              && Last(PlanOf(c, call).final.log).code == call.poll.code && Last(PlanOf(c, call).final.log).device == PlanOf(c, call).reply.device
    ensures call.RevokeCall? && PlanOf(c, call).reply.NowRevoked? ==>
              PlanOf(c, call).final.log != []
              && Last(PlanOf(c, call).final.log) == RevokedBy(call.revocation.device, call.revocation.signature)
              && PlanOf(c, call).reply.device == call.revocation.device
  {
    hide OwnerRequestFault, AcceptOwnerID, CheckRate, Struck, InitializePlan, BeginPlan, SyncPlan, PublishPlan, ListPlan, VersionFault,
      CountWrongCode, Approve, SettlePlan, RevokeRecorded, PollPlan, InitializationFault;
    match call
    case ApproveCall(r, now, later) =>
      ApproveFaults(c, r);
      SettleIsLogged(CheckRate(AcceptOwnerID(c, r.requestID), now), r, now, later);
    case PollCall(r, now) => PollIsLogged(c, r, now);
    case RevokeCall(r) => RevocationIsLogged(AcceptOwnerID(c, r.requestID), r);
    case _ =>
  }

  /** Which call gives which answer that announces a Device's status. */
  lemma AnswersFit(c: Core, call: Call)
    ensures PlanOf(c, call).reply.Initialized? ==> call.InitializeCall? && c.fabric == ""
    ensures PlanOf(c, call).reply.NowActive? ==> call.PollCall?
    ensures PlanOf(c, call).reply.NowRevoked? ==> call.RevokeCall?
  {
    hide AuthorizationFault, OwnerRequestFault, SyncFault, PublicationFault, BindingFault, PollFault, VersionFault, AcceptDeviceID,
      AcceptOwnerID, Prune, Prunes, OpenBucket, Activate, Polled, Drop, Bind, Changes, Start, CheckRate, InstallOwner;
  }

  lemma ApproveFaults(c: Core, r: Approval)
    ensures OwnerRequestFault(c, r.schema, r.version, r.owner, r.requestID, ApprovalOf(r), r.signature) != Some(InvalidUserCode)
  {
  }

  lemma SettleIsLogged(c: Core, r: Approval, now: int, later: int)
    ensures SettlePlan(c, r, now, later).reply == Fault(InvalidUserCode) ==>
              SettlePlan(c, r, now, later).final.log == c.log + [WrongCode(now)]
    ensures SettlePlan(c, r, now, later).reply.Approved? ==>
              SettlePlan(c, r, now, later).final.log != [] && Last(SettlePlan(c, r, now, later).final.log).ApprovalGiven?
              && Last(SettlePlan(c, r, now, later).final.log).signature == r.signature
  {
  }

  lemma PollIsLogged(c: Core, r: Poll, now: int)
    ensures PollPlan(c, r, now).reply.NowActive? ==>
              PollPlan(c, r, now).final.log != [] && Last(PollPlan(c, r, now).final.log).Activated?
              && Last(PollPlan(c, r, now).final.log).code == r.code && Last(PollPlan(c, r, now).final.log).device == PollPlan(c, r, now).reply.device
  {
    hide Drop, Polled, Activate, PollFault;
    if PollFault(c, r).None? {
      PollKnown(c, r);
      PollSteps(c, r.code, now, QUIET);
    }
  }

  lemma PollKnown(c: Core, r: Poll)
    requires PollFault(c, r).None?
    ensures r.code in c.activations
  {
  }

  lemma RevocationIsLogged(c: Core, r: Revocation)
    ensures RevokeRecorded(c, r).reply.NowRevoked? ==>
              RevokeRecorded(c, r).final.log == c.log + [RevokedBy(r.device, r.signature)] && RevokeRecorded(c, r).reply.device == r.device
  {
  }

  // ---- replay over a run ------------------------------------------------------------------------------

  /** The answers given before a request is recorded, and the one given when a save fails. */
  const UNRECORDED := {PersistenceFailed, OwnerNotInitialized, UnsupportedSchema, UnsupportedClientVersion, OwnerIdentityMismatch,
                       InvalidRequestID, InvalidSignature, RequestReplayed}

  /** The Owner's request went through: it got an answer that follows its acceptance. */
  predicate AcceptsOwnerID(action: Action, id: string) {
    && action.Called? && OwnerRequest(action.call) && OwnerRequestID(action.call) == id
    && !(action.reply.Fault? && action.reply.code in UNRECORDED)
  }

  /** So did a registered Device's. */
  predicate AcceptsDeviceID(action: Action, device: string, id: string) {
    && action.Called?
    && ((action.call.SyncCall? && action.reply.Versions? && action.call.sync.device == device && action.call.sync.requestID == id)
        || (action.call.PublishCall? && action.reply.Published? && action.call.publication.device == device
            && action.call.publication.requestID == id))
  }

  lemma RefusedEarly(c: Core, call: Call)
    requires OwnerRequest(call) && Refusal(c, call).Some?
    ensures Refusal(c, call).value in UNRECORDED
  {
  }

  lemma DeviceAcceptanceIsLogged(c: Core, call: Call, device: string, id: string)
    requires AcceptsDeviceID(Called(call, PlanOf(c, call).reply), device, id)
    ensures c.log + [DeviceAccepted(device, id)] <= PlanOf(c, call).final.log && device in c.devices
  {
    hide AcceptDeviceID, Bind, BindingFault, SyncFault, PublicationFault, OpenBucket, Changes;
    OpenFrame(c, device);
    match call
    case SyncCall(r, stamp) =>
      Syncable(c, r);
      AcceptGrows(OpenBucket(c, device), device, id, stamp);
    case PublishCall(r, stamp) =>
      Publishable(c, r);
      AcceptGrows(OpenBucket(c, device), device, id, stamp);
      BindGrows(AcceptDeviceID(OpenBucket(c, device), device, id, stamp), r.binding);
  }

  /** An accepted request is the first thing its call adds to the stored history. */
  lemma OwnerIDIsStored(w: World, action: Action, v: World, id: string)
    requires Sound(w) && Sound(v) && Happens(w, action, v) && AcceptsOwnerID(action, id)
    ensures LogOf(w.stored) + [OwnerAccepted(id)] <= LogOf(v.stored)
  {
    hide Inv, PlanOf, TokensFresh, Refusal, SavedUpTo;
    StoredLog(w);
    StoredLog(v);
    OwnerAcceptanceIsLogged(w.core, action.call);
    if Refusal(w.core, action.call).Some? {
      RefusedEarly(w.core, action.call);
    }
  }

  lemma DeviceIDIsStored(w: World, action: Action, v: World, device: string, id: string)
    requires Sound(w) && Sound(v) && Happens(w, action, v) && AcceptsDeviceID(action, device, id)
    ensures LogOf(w.stored) + [DeviceAccepted(device, id)] <= LogOf(v.stored) && StatusIn(LogOf(w.stored), device) != ""
  {
    hide Tables, Lawful, PlanOf, TokensFresh, SavedUpTo;
    StoredLog(w);
    StoredLog(v);
    DeviceAcceptanceIsLogged(w.core, action.call, device, id);
    RegisteredHasStatus(w.core, device);
  }

  lemma RegisteredHasStatus(c: Core, device: string)
    requires Inv(c) && device in c.devices
    ensures StatusIn(c.log, device) != ""
  {
    hide Lawful, StatusIn;
    assert DeviceOK(c.devices[device], device);
  }

  /** What was stored between the start of call `i` and the end of call `j`. */
  function StoredBetween(worlds: seq<World>, i: nat, j: nat): seq<Event>
    requires i <= j < |worlds| - 1 && LogOf(worlds[i].stored) <= LogOf(worlds[j + 1].stored)
  {
    LogOf(worlds[j + 1].stored)[|LogOf(worlds[i].stored)|..]
  }

  /** If one Owner request ID goes through twice, at least 4096 other IDs were accepted in
      between, whatever failed or was restarted meanwhile. */
  lemma OwnerIDRepeatsLate(worlds: seq<World>, actions: seq<Action>, i: nat, j: nat, id: string)
    requires IsRun(worlds, actions) && i < j < |actions| && AcceptsOwnerID(actions[i], id) && AcceptsOwnerID(actions[j], id)
    ensures LogOf(worlds[i].stored) <= LogOf(worlds[j + 1].stored)
    ensures |Elems(OwnerHistory(StoredBetween(worlds, i, j))) - {id}| >= 4096
  {
    hide Happens, Sound, Lawful, AcceptsOwnerID, OwnerHistory, Elems;
    RunsStaySound(worlds, actions, i);
    RunsStaySound(worlds, actions, i + 1);
    RunsStaySound(worlds, actions, j);
    RunsStaySound(worlds, actions, j + 1);
    StoredHistoryOnlyGrows(worlds, actions, i + 1, j);
    OwnerIDIsStored(worlds[i], actions[i], worlds[i + 1], id);
    OwnerIDIsStored(worlds[j], actions[j], worlds[j + 1], id);
    StoredIsLawful(worlds[j + 1]);
    var log, p, q := LogOf(worlds[j + 1].stored), |LogOf(worlds[i].stored)|, |LogOf(worlds[j].stored)|;
    OwnerReplayDistance(log, p, q);
    OwnerHistoryWithin(log, p, p + 1, q, id);
  }

  /** The IDs of a stretch are among those of a longer one. */
  lemma OwnerHistoryWithin(log: seq<Event>, from: nat, i: nat, j: nat, id: string)
    requires from <= i <= j <= |log|
    ensures |Elems(OwnerHistory(log[i..j])) - {id}| <= |Elems(OwnerHistory(log[from..])) - {id}|
  {
    hide OwnerHistory;
    var all := log[from..];
    OwnerHistorySplits(all, j - from);
    OwnerHistorySplits(all[..j - from], i - from);
    assert all[..j - from][i - from..] == log[i..j];
    SubsetIsSmaller(Elems(OwnerHistory(log[i..j])) - {id}, Elems(OwnerHistory(all)) - {id});
  }

  /** The same for a registered Device with 1024. */
  lemma DeviceIDRepeatsLate(worlds: seq<World>, actions: seq<Action>, i: nat, j: nat, device: string, id: string)
    requires IsRun(worlds, actions) && i < j < |actions|
    requires AcceptsDeviceID(actions[i], device, id) && AcceptsDeviceID(actions[j], device, id)
    ensures LogOf(worlds[i].stored) <= LogOf(worlds[j + 1].stored)
    ensures |Elems(DeviceHistory(StoredBetween(worlds, i, j), device)) - {id}| >= 1024
  {
    hide Happens, Sound, Lawful, AcceptsDeviceID, DeviceHistory, Elems, StatusIn;
    RunsStaySound(worlds, actions, i);
    RunsStaySound(worlds, actions, i + 1);
    RunsStaySound(worlds, actions, j);
    RunsStaySound(worlds, actions, j + 1);
    StoredHistoryOnlyGrows(worlds, actions, i + 1, j);
    DeviceIDIsStored(worlds[i], actions[i], worlds[i + 1], device, id);
    DeviceIDIsStored(worlds[j], actions[j], worlds[j + 1], device, id);
    StoredIsLawful(worlds[j + 1]);
    var log, p, q := LogOf(worlds[j + 1].stored), |LogOf(worlds[i].stored)|, |LogOf(worlds[j].stored)|;
    assert log[..p] == LogOf(worlds[i].stored);
    DeviceReplayDistance(log, p, q);
    RegisteredIsNeverDropped(log, p, device);
    DeviceHistoryWithin(log, p, p + 1, q, device, id);
  }

  lemma DeviceHistoryWithin(log: seq<Event>, from: nat, i: nat, j: nat, device: string, id: string)
    requires from <= i <= j <= |log| && Undropped(log[from..], device)
    ensures |Elems(DeviceHistory(log[i..j], device)) - {id}| <= |Elems(DeviceHistory(log[from..], device)) - {id}|
  {
    hide DeviceHistory;
    var all := log[from..];
    assert Undropped(all[j - from..], device);
    DeviceHistorySplits(all, j - from, device);
    assert Undropped(all[..j - from][i - from..], device);
    DeviceHistorySplits(all[..j - from], i - from, device);
    assert all[..j - from][i - from..] == log[i..j];
    SubsetIsSmaller(Elems(DeviceHistory(log[i..j], device)) - {id}, Elems(DeviceHistory(all, device)) - {id});
  }

  // ---- wrong codes over a run -------------------------------------------------------------------------

  /** The clock reading the rate limit takes: the first one of an approval. */
  function Reading(action: Action): Option<int> {
    if action.Called? && action.call.ApproveCall? then Some(action.call.now) else None
  }

  /** Approvals read a clock that never runs backwards; nothing is said of other readings. */
  predicate ClockRunsForward(actions: seq<Action>) {
    forall i, j | 0 <= i < j < |actions| && Reading(actions[i]).Some? && Reading(actions[j]).Some? ::
      Reading(actions[i]).value <= Reading(actions[j]).value
  }

  predicate RefusesWrongCode(action: Action, from: int) {
    && action.Called? && action.call.ApproveCall? && action.reply == Fault(InvalidUserCode)
    && from <= action.call.now < from + 60_000_000_000
  }

  /** How many calls of the run were answered INVALID_USER_CODE in the minute from `from`. */
  function WrongAnswers(actions: seq<Action>, from: int): nat {
    if actions == [] then 0
    else WrongAnswers(actions[..|actions| - 1], from) + if RefusesWrongCode(actions[|actions| - 1], from) then 1 else 0
  }

  lemma {:induction false} ClockStaysForward(before: seq<Event>, after: seq<Event>, cause: Cause)
    requires ClockForward(before) && Continues(before, after, cause)
    requires cause.clock.Some? ==> LastReading(before) <= cause.clock.value
    ensures ClockForward(after) && (LastReading(after) == LastReading(before) || cause.clock == Some(LastReading(after)))
    decreases |after|
  {
    if |before| < |after| {
      ClockStaysForward(before, Init(after), cause);
      assert Explained(cause, Last(after));
    } else {
      assert before == after;
    }
  }

  lemma {:induction false} WrongCodesStay(before: seq<Event>, after: seq<Event>, from: int)
    requires before <= after
    ensures WrongCodesWithin(before, from) <= WrongCodesWithin(after, from)
    decreases |after|
  {
    if |before| < |after| {
      WrongCodesStay(before, Init(after), from);
    } else {
      assert before == after;
    }
  }

  lemma WrongCodeIsLogged(c: Core, r: Approval, now: int, later: int, from: int)
    requires ApprovePlan(c, r, now, later).reply == Fault(InvalidUserCode)
    ensures var log := ApprovePlan(c, r, now, later).final.log;
            WrongCodesWithin(log, from) >= WrongCodesWithin(c.log, from) + if Within(from, now) then 1 else 0
  {
    hide OwnerRequestFault, AcceptOwnerID, CheckRate, SettlePlan, Within;
    var checked := CheckRate(AcceptOwnerID(c, r.requestID), now);
    ApproveFaults(c, r);
    CheckedGrows(c, r.requestID, now);
    SettleIsLogged(checked, r, now, later);
    WrongCodesStay(c.log, checked.log, from);
    Extends(checked.log, WrongCode(now));
  }

  /** A wrong code that was answered is in the stored history. */
  lemma AnswerIsCounted(w: World, r: Approval, now: Clock, later: Clock, v: World, from: int)
    requires Sound(w) && Sound(v) && Happens(w, Called(ApproveCall(r, now, later), Fault(InvalidUserCode)), v)
    ensures WrongCodesWithin(LogOf(v.stored), from) >= WrongCodesWithin(LogOf(w.stored), from) + if Within(from, now) then 1 else 0
  {
    hide Inv, ApprovePlan, Within, WrongCodesWithin, SavedUpTo;
    StoredLog(w);
    StoredLog(v);
    WrongCodeIsLogged(w.core, r, now, later, from);
  }

  lemma {:induction false} WrongAnswersAreCounted(worlds: seq<World>, actions: seq<Action>, n: nat, from: int)
    requires IsRun(worlds, actions) && ClockRunsForward(actions) && n < |worlds|
    ensures ClockForward(LogOf(worlds[n].stored))
    ensures forall j | n <= j < |actions| && Reading(actions[j]).Some? :: LastReading(LogOf(worlds[n].stored)) <= Reading(actions[j]).value
    ensures WrongAnswers(actions[..n], from) <= WrongCodesWithin(LogOf(worlds[n].stored), from)
  {
    hide Happens, Sound, ClockForward, LastReading, WrongCodesWithin, Continues;
    RunsStaySound(worlds, actions, n);
    if n == 0 {
      NothingRead(from);
    } else {
      var w, action, v := worlds[n - 1], actions[n - 1], worlds[n];
      WrongAnswersAreCounted(worlds, actions, n - 1, from);
      RunsStaySound(worlds, actions, n - 1);
      StepStaysSound(w, action, v);
      ClockStaysForward(LogOf(w.stored), LogOf(v.stored), CauseOfAction(action));
      ContinuesPrefix(LogOf(w.stored), LogOf(v.stored), CauseOfAction(action));
      WrongCodesStay(LogOf(w.stored), LogOf(v.stored), from);
      if RefusesWrongCode(action, from) {
        AnswerIsCounted(w, action.call.approval, action.call.now, action.call.later, v, from);
      }
      assert actions[..n][..n - 1] == actions[..n - 1];
    }
  }

  lemma NothingRead(from: int)
    ensures ClockForward([]) && LastReading([]) == 0 && WrongCodesWithin([], from) == 0
  {
  }

  lemma ContinuesPrefix(before: seq<Event>, after: seq<Event>, cause: Cause)
    requires Continues(before, after, cause)
    ensures before <= after
  {
  }

  /** If approvals read a clock that never runs backwards, no half-open minute sees more
      than 20 INVALID_USER_CODE answers, whatever else is called, fails or restarts. */
  lemma AtMostTwentyWrongAnswers(worlds: seq<World>, actions: seq<Action>, from: int)
    requires IsRun(worlds, actions) && ClockRunsForward(actions)
    ensures WrongAnswers(actions, from) <= 20
  {
    hide Happens, Tables, Lawful, ClockForward, LastReading, WrongCodesWithin, WrongAnswers, Within;
    var n := |actions|;
    WrongAnswersAreCounted(worlds, actions, n, from);
    RunsStaySound(worlds, actions, n);
    assert actions[..n] == actions;
    StoredIsLawful(worlds[n]);
    AtMostTwentyWrongCodes(LogOf(worlds[n].stored), from);
  }

  lemma StoredIsLawful(w: World)
    requires Sound(w)
    ensures Lawful(LogOf(w.stored))
  {
    hide Tables;
  }
}
