/** The Manager and the snapshots on one database: runs of the Manager's calls, restarts,
    commits and loads, from a signed revocation to what the catalog answers. */
module SharedDatabase {
  import opened Common
  import opened Snapshots
  import opened Enrollment
  import opened EnrollmentHistory
  import opened EnrollmentSafety
  import opened EnrollmentPersistence
  import opened EnrollmentManager
  import opened EnrollmentAnswers
  import R = EnrollmentRuns
  import Catalog
  import SnapshotStore

  datatype State = State(world: R.World, db: Database)

  datatype Step =
    | Managed(action: R.Action)
    | Committed(snapshot: Snapshot)
    | Served(id: nat, raw: Snapshot, snapshot: Snapshot)
    | Disturbed // a failed call, a clock observation, damage to the rows of snapshots

  /** The Device status that is written with the tables. */
  function StatusOf(action: R.Action): Option<(string, bool)> {
    match action
    case Called(_, reply) => Announced(reply)
    case Restarted(_, _) => None
  }

  /** What each call does to the database it shares. */
  ghost predicate Takes(before: State, step: Step, after: State) {
    match step
    case Managed(action) =>
      && R.Happens(before.world, action, after.world)
      && Writes(before.db, before.world.stored, StatusOf(action), after.db, after.world.stored)
    case Committed(s) => after.world == before.world && SnapshotStore.Commits(before.db, s, after.db)
    case Served(id, raw, s) =>
      && after.world == before.world && after.db == before.db.(active := Some(id))
      && SnapshotStore.Shows(before.db, id, raw, s) && SnapshotStore.Admissible(before.db, s)
    case Disturbed =>
      && after.world == before.world && after.db.ledger == before.db.ledger
      && after.db.control == before.db.control && after.db.versions == before.db.versions && after.db.revocations == before.db.revocations
  }

  ghost predicate IsRun(states: seq<State>, steps: seq<Step>) {
    && |states| == |steps| + 1
    && states[0].world == R.World(Empty(), false, None) && states[0].db.control.None? && states[0].db.revocations == map[]
    && forall i, j | 0 <= i < |steps| && j == i + 1 :: Takes(states[i], steps[i], states[j])
  }

  /** The saved state is right whenever the overlay and the tables are read. */
  ghost predicate Right(s: State) {
    R.Sound(s.world) && Durable(s.db, s.world.stored)
  }

  // ---- why a save leaves the overlay right -------------------------------------------------

  /** The Devices revoked in the saved state. */
  function RevokedStored(stored: Option<Core>): set<string> {
    if stored.Some? then RevokedIn(stored.value) else {}
  }

  function Marked(revoked: set<string>, status: Option<(string, bool)>): set<string> {
    if status.Some? then NowRevokedKeys(revoked, status.value) else revoked
  }

  lemma RevokedByHistory(w: R.World, device: string)
    requires R.Sound(w)
    ensures device in RevokedStored(w.stored) <==> StatusIn(R.LogOf(w.stored), device) == REVOKED
  {
    hide Tables, Lawful, StatusIn, OwnerIn;
    NobodyRevoked(device);
  }

  lemma NobodyRevoked(device: string)
    ensures StatusIn([], device) != REVOKED
  {
  }

  /** Only the Device a call activates or revokes changes between revoked and not. */
  lemma {:induction false} StatusFollows(before: seq<Event>, after: seq<Event>, cause: R.Cause, device: string)
    requires Lawful(after) && R.Continues(before, after, cause)
    ensures cause.activates != Some(device) && StatusIn(before, device) == REVOKED ==> StatusIn(after, device) == REVOKED
    ensures cause.revokes != Some(device) && StatusIn(after, device) == REVOKED ==> StatusIn(before, device) == REVOKED
    decreases |after|
  {
    hide May;
    if |before| < |after| {
      StatusFollows(before, Init(after), cause, device);
      assert R.Explained(cause, Last(after));
      if Last(after).Installed? {
        InstalledFirst(after);
      }
    } else {
      assert before == after;
    }
  }

  lemma InstalledFirst(log: seq<Event>)
    requires log != [] && Lawful(log) && Last(log).Installed?
    ensures Init(log) == []
  {
  }

  /** What a call announces is what its history says. */
  lemma AnnouncedIsLogged(w: R.World, call: R.Call, reply: Reply, v: R.World)
    requires R.Sound(w) && R.Sound(v) && R.Happens(w, R.Called(call, reply), v) && Announced(reply).Some?
    ensures reply.NowActive? ==> call.PollCall? && StatusIn(R.LogOf(v.stored), reply.device) == ACTIVE
    ensures reply.NowRevoked? ==> call.RevokeCall? && StatusIn(R.LogOf(v.stored), reply.device) == REVOKED
    ensures reply.Initialized? ==> R.LogOf(w.stored) == []
  {
    hide Inv, InSync, R.PlanOf, SavedUpTo;
    R.StoredLog(w);
    R.StoredLog(v);
    R.AnswersAreLogged(w.core, call);
    R.AnswersFit(w.core, call);
    if reply.Initialized? {
      UninitializedLog(w.core);
    }
  }

  lemma UninitializedLog(c: Core)
    requires Inv(c) && c.fabric == ""
    ensures c.log == []
  {
    hide Histories;
    UninitializedIsEmpty(c);
  }

  /** The revoked Devices change as the announced status says. */
  lemma RevokedFollow(w: R.World, action: R.Action, v: R.World)
    requires R.Sound(w) && R.Sound(v) && R.Happens(w, action, v)
    ensures RevokedStored(v.stored) == Marked(RevokedStored(w.stored), StatusOf(action))
  {
    hide R.Happens, R.Sound, R.Continues, Lawful, StatusIn, RevokedStored;
    R.StepStaysSound(w, action, v);
    R.StoredIsLawful(v);
    if StatusOf(action).Some? {
      AnnouncedIsLogged(w, action.call, action.reply, v);
    }
    forall device: string
      ensures device in RevokedStored(v.stored) <==> device in Marked(RevokedStored(w.stored), StatusOf(action))
    {
      RevokedByHistory(w, device);
      RevokedByHistory(v, device);
      NobodyRevoked(device);
      StatusFollows(R.LogOf(w.stored), R.LogOf(v.stored), R.CauseOfAction(action), device);
    }
  }

  lemma KeepsOverlay(before: Database, after: Database, stored: Option<Core>)
    requires Durable(before, stored) && after.control == before.control && after.revocations == before.revocations
    ensures Durable(after, stored)
  {
    hide Inv, IsSnapshot;
  }

  /** A save of safe tables leaves the database right if the overlay gets their revoked Devices. */
  lemma SaveIsRight(before: Database, c: Core, status: Option<(string, bool)>, after: Database)
    requires Inv(c) && Saves(before, c, status, after) && RevokedIn(c) == Marked(before.revocations.Keys, status)
    ensures Durable(after, Some(c))
  {
    hide Inv, IsSnapshot, RevokedIn;
    var payload :| IsSnapshot(payload, c) && after == Saved(before, payload, c, status);
  }

  /** A call of the Manager, or a restart, keeps saved state and overlay right. */
  lemma ManagedKeepsRight(before: State, action: R.Action, after: State)
    requires Right(before) && Takes(before, Managed(action), after)
    ensures Right(after)
  {
    hide Inv, InSync, R.Happens, Saves, IsSnapshot, RevokedIn;
    R.StepStaysSound(before.world, action, after.world);
    RevokedFollow(before.world, action, after.world);
    if after.db != before.db || after.world.stored != before.world.stored {
      SaveIsRight(before.db, after.world.stored.value, StatusOf(action), after.db);
    }
  }

  lemma StepKeepsRight(before: State, step: Step, after: State)
    requires Right(before) && Takes(before, step, after)
    ensures Right(after)
  {
    hide Durable, R.Sound, R.Happens, Writes, SnapshotStore.Shows, SnapshotStore.Admissible, SnapshotStore.Stored, SnapshotStore.Newest,
      SnapshotStore.Advances, SnapshotStore.NewestBindings, SnapshotStore.SliceAt;
    match step
    case Managed(action) => ManagedKeepsRight(before, action, after);
    case _ => KeepsOverlay(before.db, after.db, before.world.stored);
  }

  lemma {:induction false} RunsStayRight(states: seq<State>, steps: seq<Step>, n: nat)
    requires IsRun(states, steps) && n < |states|
    ensures Right(states[n])
  {
    hide Takes, Inv;
    if n == 0 {
      EmptyIsSafe();
    } else {
      RunsStayRight(states, steps, n - 1);
      StepKeepsRight(states[n - 1], steps[n - 1], states[n]);
    }
  }

  /** While no save has failed, what is stored is a snapshot of the tables in memory, and a
      restart reads it back. */
  lemma StoredStateIsCurrent(states: seq<State>, steps: seq<Step>, n: nat)
    requires IsRun(states, steps) && n < |states| && !states[n].world.failed
    ensures var s := states[n];
            if s.db.control.Some? then IsSnapshot(s.db.control.value, s.world.core) else s.world.core == Empty()
  {
    hide IsRun, Inv, IsSnapshot;
    RunsStayRight(states, steps, n);
    var s := states[n];
    if s.world.stored.Some? {
      SameSnapshot(s.db.control.value, s.world.stored.value, s.world.core);
    }
  }

  /** At every moment the revocation table is exactly that set. */
  lemma OverlayIsRevokedSet(states: seq<State>, steps: seq<Step>, n: nat)
    requires IsRun(states, steps) && n < |states|
    ensures states[n].db.revocations.Keys == RevokedStored(states[n].world.stored)
  {
    hide IsRun, Inv, IsSnapshot, RevokedIn;
    RunsStayRight(states, steps, n);
  }

  // ---- from a revocation to the catalog --------------------------------------------------

  /** The only way back: the Device was enrolled anew and is told so. */
  predicate Reactivates(step: Step, device: string) {
    && step.Managed? && step.action.Called? && step.action.call.PollCall?
    && step.action.reply.NowActive? && step.action.reply.device == device
  }

  ghost predicate Revoked(s: State, device: string) {
    StatusIn(R.LogOf(s.world.stored), device) == REVOKED
  }

  lemma RevocationIsStored(before: State, step: Step, after: State, r: Revocation, reply: Reply)
    requires Right(before) && Takes(before, step, after) && step == Managed(R.Called(R.RevokeCall(r), reply)) && reply.NowRevoked?
    ensures Revoked(after, r.device)
  {
    hide Inv, InSync, Durable, Writes, RevokePlan, SavedUpTo;
    R.StepStaysSound(before.world, step.action, after.world);
    R.StoredLog(after.world);
    R.AnswersAreLogged(before.world.core, R.RevokeCall(r));
  }

  lemma StepKeepsRevoked(before: State, step: Step, after: State, device: string)
    requires Right(before) && Takes(before, step, after) && Revoked(before, device) && !Reactivates(step, device)
    ensures Revoked(after, device)
  {
    hide Durable, R.Sound, R.Happens, Writes, R.Continues, StatusIn, SnapshotStore.Shows, SnapshotStore.Admissible, SnapshotStore.Commits;
    if step.Managed? {
      R.StepStaysSound(before.world, step.action, after.world);
      R.StoredIsLawful(after.world);
      StatusFollows(R.LogOf(before.world.stored), R.LogOf(after.world.stored), R.CauseOfAction(step.action), device);
    }
  }

  lemma {:induction false} RevokedStaysRevoked(states: seq<State>, steps: seq<Step>, i: nat, j: nat, device: string)
    requires IsRun(states, steps) && i <= j < |states| && Revoked(states[i], device)
    requires forall k | i <= k < j :: !Reactivates(steps[k], device)
    ensures Revoked(states[j], device)
    decreases j - i
  {
    hide Takes, Revoked, Reactivates, Right;
    if i < j {
      RevokedStaysRevoked(states, steps, i, j - 1, device);
      RunsStayRight(states, steps, j - 1);
      StepKeepsRevoked(states[j - 1], steps[j - 1], states[j], device);
    }
  }

  lemma RevokedIsInOverlay(s: State, device: string)
    requires Right(s) && Revoked(s, device)
    ensures device in s.db.revocations && device != ""
  {
    hide Tables, IsSnapshot, Lawful, StatusIn, R.Sound;
    NobodyRevoked(device);
    var c := s.world.stored.value;
    assert StatusIn(c.log, device) == if device in c.devices then c.devices[device].status else "";
    HasName(c, device);
  }

  lemma HasName(c: Core, device: string)
    requires Inv(c) && device in c.devices
    ensures device != ""
  {
    hide Histories;
    assert DeviceOK(c.devices[device], device);
  }

  /** Once the Manager has answered that a Device is revoked, every snapshot loaded, from
      whatever it was committed with and as long as the Device is not enrolled anew, marks
      the Device and its grants revoked, and the catalog offers nothing on it or to it. */
  lemma RevokedDeviceIsCutOff(states: seq<State>, steps: seq<Step>, i: nat, j: nat, r: Revocation, reply: Reply,
                              subject: string, now: int, capability: Capability)
    requires IsRun(states, steps) && i < j < |steps|
    requires steps[i] == Managed(R.Called(R.RevokeCall(r), reply)) && reply.NowRevoked?
    requires steps[j].Served? && forall k | i < k < j :: !Reactivates(steps[k], r.device)
    requires r.device in {capability.device, subject}
    ensures forall d | d in steps[j].snapshot.devices && d.id == r.device :: d.state == REVOKED
    ensures forall g | g in steps[j].snapshot.grants && g.subject == r.device :: g.state == REVOKED
    ensures !Catalog.Offered(Catalog.ViewOf(steps[j].snapshot, subject), now, capability)
  {
    hide Revoked, Reactivates, Right, R.Happens, Durable, SnapshotStore.IsLoad, SnapshotStore.Overlaid, SnapshotStore.Admissible,
      SnapshotStore.Commits, Catalog.Offered, Catalog.ViewOf;
    RunsStayRight(states, steps, i);
    RunsStayRight(states, steps, j);
    assert Takes(states[i], steps[i], states[i + 1]);
    RevocationIsStored(states[i], steps[i], states[i + 1], r, reply);
    RevokedStaysRevoked(states, steps, i + 1, j, r.device);
    RevokedIsInOverlay(states[j], r.device);
    assert Takes(states[j], steps[j], states[j + 1]);
    var db, raw, s := states[j].db, steps[j].raw, steps[j].snapshot;
    SnapshotStore.RevokedAreMarked(db.versions, db.revocations.Keys, raw, s);
    Catalog.RevokedIsNeverOffered(db.versions, db.revocations.Keys, raw, s, subject, now, capability);
  }

  // ---- the versions a loaded snapshot shows -------------------------------------------------

  /** The control versions are there, and at least these. */
  predicate AtLeast(versions: Option<SnapshotStore.Versions>, directory: nat, grant: nat) {
    versions.Some? && directory <= versions.value.directory && grant <= versions.value.grant
  }

  lemma StepKeepsVersions(before: State, step: Step, after: State, directory: nat, grant: nat)
    requires Takes(before, step, after) && AtLeast(before.db.versions, directory, grant)
    ensures AtLeast(after.db.versions, directory, grant)
  {
    hide R.Happens, SnapshotStore.Shows, SnapshotStore.Admissible, SnapshotStore.Stored, SnapshotStore.Newest, SnapshotStore.Advances,
      SnapshotStore.NewestBindings, SnapshotStore.SliceAt, IsSnapshot, SnapshotStore.HighestOf, SnapshotStore.Raised;
    if step.Managed? && after.db != before.db {
      var c, status := after.world.stored.value, StatusOf(step.action);
      var payload :| IsSnapshot(payload, c) && after.db == Saved(before.db, payload, c, status);
      if status.Some? {
        SavedVersions(before.db, payload, c, status.value);
        HighestIsAtLeast(before.db.versions, c.directoryVersion, c.grantVersion, after.db.versions.value, directory, grant);
      }
    }
  }

  lemma SavedVersions(before: Database, payload: Persisted, c: Core, update: (string, bool))
    ensures var after := Saved(before, payload, c, Some(update));
            after.versions.Some? && SnapshotStore.HighestOf(before.versions, c.directoryVersion, c.grantVersion, after.versions.value)
  {
    SnapshotStore.StatusMeans(before, payload, update.0, update.1, c.directoryVersion, c.grantVersion);
  }

  lemma HighestIsAtLeast(before: Option<SnapshotStore.Versions>, d: nat, g: nat, after: SnapshotStore.Versions, directory: nat, grant: nat)
    requires SnapshotStore.HighestOf(before, d, g, after) && AtLeast(before, directory, grant)
    ensures directory <= after.directory && grant <= after.grant
  {
  }

  lemma {:induction false} VersionsNeverDrop(states: seq<State>, steps: seq<Step>, i: nat, j: nat, directory: nat, grant: nat)
    requires IsRun(states, steps) && i <= j < |states| && AtLeast(states[i].db.versions, directory, grant)
    ensures AtLeast(states[j].db.versions, directory, grant)
    decreases j - i
  {
    hide Takes, AtLeast;
    if i < j {
      VersionsNeverDrop(states, steps, i, j - 1, directory, grant);
      StepKeepsVersions(states[j - 1], steps[j - 1], states[j], directory, grant);
    }
  }

  /** The versions an answer tells, if it announces a Device's status. */
  function Told(reply: Reply): Option<(nat, nat)> {
    match reply
    case NowActive(_, _, directory, grant) => Some((directory, grant))
    case NowRevoked(_, directory, grant) => Some((directory, grant))
    case _ => None
  }

  lemma TellsItsVersions(w: R.World, call: R.Call, reply: Reply, v: R.World)
    requires R.Sound(w) && R.Sound(v) && R.Happens(w, R.Called(call, reply), v) && Told(reply).Some?
    ensures v.stored.Some? && Told(reply) == Some((v.stored.value.directoryVersion, v.stored.value.grantVersion))
    ensures Announced(reply).Some?
  {
    hide Inv, R.PlanOf, SavedUpTo, PollEffect, RevokeEffect;
    NotFailed(w, call, reply, v);
    R.AnswersFit(w.core, call);
    if reply.NowActive? {
      PollMeans(w, call.poll, call.now, reply, v);
      ActiveTells(w.core, call.poll.code, call.now, reply, v.core);
    } else {
      RevokeMeans(w, call.revocation, reply, v);
      RevokedTells(w.core, call.revocation, reply, v.core);
    }
    SyncedVersions(v);
  }

  lemma NotFailed(w: R.World, call: R.Call, reply: Reply, v: R.World)
    requires R.Happens(w, R.Called(call, reply), v) && Told(reply).Some?
    ensures Answers(w, call, reply, v) && R.PlanOf(w.core, call).reply == reply
  {
    hide R.PlanOf;
  }

  lemma SyncedVersions(v: R.World)
    requires R.Sound(v) && !v.failed && v.core.directoryVersion > 0
    ensures v.stored.Some?
    ensures v.stored.value.directoryVersion == v.core.directoryVersion && v.stored.value.grantVersion == v.core.grantVersion
  {
    hide Inv;
  }

  lemma ActiveTells(c: Core, code: Code, now: int, reply: Reply, d: Core)
    requires code in c.activations && reply.NowActive? && PollEffect(c, code, now, reply, d)
    ensures Told(reply) == Some((d.directoryVersion, d.grantVersion)) && d.directoryVersion > 0
  {
  }

  lemma RevokedTells(c: Core, r: Revocation, reply: Reply, d: Core)
    requires reply.NowRevoked? && RevokeEffect(c, r, reply, d)
    ensures Told(reply) == Some((d.directoryVersion, d.grantVersion)) && d.directoryVersion > 0
  {
  }

  /** Once the Manager has told the versions after an activation or a revocation, no
      snapshot loaded later shows lower ones, whatever it was committed with. */
  lemma LoadedVersionsKeepUp(states: seq<State>, steps: seq<Step>, i: nat, j: nat, call: R.Call, reply: Reply, told: (nat, nat))
    requires IsRun(states, steps) && i < j < |steps| && steps[j].Served?
    requires steps[i] == Managed(R.Called(call, reply)) && Told(reply) == Some(told)
    ensures told.0 <= steps[j].snapshot.directoryVersion && told.1 <= steps[j].snapshot.grantVersion
  {
    hide IsSnapshot, R.Happens, Inv, SnapshotStore.IsLoad, SnapshotStore.Overlaid, SnapshotStore.Admissible, SnapshotStore.Commits,
      SnapshotStore.ShownOver, SnapshotStore.HighestOf, R.Sound, Durable;
    RunsStayRight(states, steps, i);
    RunsStayRight(states, steps, i + 1);
    var before, after := states[i], states[i + 1];
    assert Takes(before, steps[i], after);
    TellsItsVersions(before.world, call, reply, after.world);
    StatusIsSaved(before, call, reply, after, told);
    VersionsNeverDrop(states, steps, i + 1, j, told.0, told.1);
    assert Takes(states[j], steps[j], states[j + 1]);
    var db, raw, s := states[j].db, steps[j].raw, steps[j].snapshot;
    SnapshotStore.ShownMeans(db, steps[j].id, raw, s);
    ShownAtLeast(db, raw, s, told);
  }

  lemma StatusIsSaved(before: State, call: R.Call, reply: Reply, after: State, told: (nat, nat))
    requires Writes(before.db, before.world.stored, Announced(reply), after.db, after.world.stored) && Announced(reply).Some?
    requires after.world.stored.Some? && told == (after.world.stored.value.directoryVersion, after.world.stored.value.grantVersion)
    ensures AtLeast(after.db.versions, told.0, told.1)
  {
    hide IsSnapshot, SnapshotStore.Raised, Saved;
    var c := after.world.stored.value;
    var payload :| IsSnapshot(payload, c) && after.db == Saved(before.db, payload, c, Announced(reply));
    SavedVersions(before.db, payload, c, Announced(reply).value);
  }

  lemma ShownAtLeast(db: Database, raw: Snapshot, s: Snapshot, told: (nat, nat))
    requires SnapshotStore.ShownOver(db.versions, db.revocations.Keys, raw, s) && AtLeast(db.versions, told.0, told.1)
    ensures told.0 <= s.directoryVersion && told.1 <= s.grantVersion
  {
  }

  // ---- the ledger over the same run ---------------------------------------------------------

  function StoreEvent(step: Step): SnapshotStore.Event {
    match step
    case Committed(s) => SnapshotStore.Event.Committed(s)
    case Served(id, raw, s) => SnapshotStore.Event.Served(id, raw, s)
    case _ => SnapshotStore.Other
  }

  function Databases(states: seq<State>): seq<Database> {
    seq(|states|, i requires 0 <= i < |states| => states[i].db)
  }

  function StoreEvents(steps: seq<Step>): seq<SnapshotStore.Event> {
    seq(|steps|, i requires 0 <= i < |steps| => StoreEvent(steps[i]))
  }

  /** Seen from the store alone, such a run is one of its own runs: whatever the Manager
      does in between, served bindings never regress. */
  lemma IsStoreRun(states: seq<State>, steps: seq<Step>)
    requires IsRun(states, steps)
    ensures SnapshotStore.IsRun(Databases(states), StoreEvents(steps))
  {
    hide Takes, StoreEvent;
    forall i, j | 0 <= i < |steps| && j == i + 1
      ensures SnapshotStore.Happens(states[i].db, StoreEvent(steps[i]), states[j].db)
    {
      IsStoreStep(states[i], steps[i], states[j]);
    }
  }

  lemma IsStoreStep(before: State, step: Step, after: State)
    requires Takes(before, step, after)
    ensures SnapshotStore.Happens(before.db, StoreEvent(step), after.db)
  {
    hide R.Happens, Writes, SnapshotStore.Shows, SnapshotStore.Admissible, SnapshotStore.Commits;
    if step.Managed? {
      WritesBeside(before.db, before.world.stored, StatusOf(step.action), after.db, after.world.stored);
      assert Beside(after.db).ledger == after.db.ledger && Beside(before.db).ledger == before.db.ledger;
    }
  }

  // ---- the methods take these steps ---------------------------------------------------------

  ghost function StateOf(m: Manager): State
    reads m, m.store
  {
    State(R.World(m.State(), m.failed, m.stored), m.store.db)
  }

  method Call(m: Manager, call: R.Call) returns (reply: Reply)
    requires m.Valid() && (!m.failed ==> R.TokensFresh(m.State(), call))
    modifies m, m.store
    ensures m.Valid() && Takes(old(StateOf(m)), Managed(R.Called(call, reply)), StateOf(m))
  {
    hide R.Happens, Writes, Durable, Inv, InSync, R.TokensFresh;
    reply := R.Perform(m, call);
  }

  method Restart(m: Manager, stamps: Readings, later: Clock) returns (n: Manager?, ok: bool)
    requires m.Valid()
    modifies m.store
    ensures ok ==> n != null && n.store == m.store && n.Valid() && Takes(old(StateOf(m)), Managed(R.Restarted(stamps, later)), StateOf(n))
    ensures !ok ==> m.Valid() && Takes(old(StateOf(m)), Disturbed, StateOf(m))
  {
    hide R.Happens, Writes, Durable, Inv, InSync;
    n, ok := R.Restart(m.store, stamps, later, R.World(m.State(), m.failed, m.stored));
  }

  method Commit(m: Manager, s: Snapshot) returns (ok: bool)
    requires m.Valid()
    modifies m.store
    ensures m.Valid() && Takes(old(StateOf(m)), if ok then Committed(s) else Disturbed, StateOf(m))
  {
    hide Durable, Inv, InSync, SnapshotStore.Stored, SnapshotStore.Newest, SnapshotStore.Advances, SnapshotStore.NewestBindings,
      SnapshotStore.SliceAt, SnapshotStore.AllAcceptable, SnapshotStore.Tidy, Snapshots.Valid;
    ghost var before := m.store.db;
    ok := m.store.CommitSnapshot(s);
    KeepsOverlay(before, m.store.db, m.stored);
  }

  method Load(m: Manager) returns (result: SnapshotStore.LoadResult, ghost step: Step)
    requires m.Valid()
    modifies m.store
    ensures m.Valid() && Takes(old(StateOf(m)), step, StateOf(m))
    ensures if result.Loaded? then step.Served? && step.snapshot == result.snapshot else step == Disturbed
  {
    hide Durable, Inv, InSync, SnapshotStore.Shows, SnapshotStore.Admissible, SnapshotStore.Tidy, SnapshotStore.Skipped, SnapshotStore.AllSkipped;
    ghost var before := m.store.db;
    ghost var id, raw;
    result, id, raw := m.store.LoadLatestValidSnapshot();
    KeepsOverlay(before, m.store.db, m.stored);
    step := if result.Loaded? then Served(id, raw, result.snapshot) else Disturbed;
  }
}
