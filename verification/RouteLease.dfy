/** The Gateway's route-lease table. Issue and Release take the mutex in short regions
    and call the Broker between them, so several calls interleave region by region. */
module RouteLease {
  import opened Common

  const MAX_REPLAYS := 4096
  const MAX_ACTIVE := 256
  const SECOND := 1_000_000_000
  const DEFAULT_TTL := 120 * SECOND

  type RequestKey = (string, string) // subject Device and request ID

  datatype Authorization = Authorization(publicKey: string, validUntil: int)
  datatype Lease = Lease(subject: string, target: string, expires: int, publicKey: string)

  /** `signedBy` is the key under which the request's signature verifies, if any. */
  datatype IssueRequest = IssueRequest(wellFormed: bool, subject: string, target: string, requestID: string,
                                       authorization: Option<Authorization>, signedBy: Option<string>)
  datatype ReleaseRequest = ReleaseRequest(wellFormed: bool, lease: string, subject: string, signedBy: Option<string>)

  /** The checks before the first lock region, and the expiry they grant. */
  function Admit(request: IssueRequest, now: int, ttl: int): Option<int> {
    if !request.wellFormed || request.authorization.None? then None
    else if request.signedBy != Some(request.authorization.value.publicKey) then None
    else if request.authorization.value.validUntil <= now then None
    else
      var bounded := now + if 0 < ttl <= DEFAULT_TTL then ttl else DEFAULT_TTL;
      Some(if request.authorization.value.validUntil < bounded then request.authorization.value.validUntil else bounded)
  }

  /** The end of a lease: the lifetime set on the Manager, or two minutes when none or a
      longer one is set, but never later than the authorization's own end. */
  predicate Expiry(validUntil: int, now: int, ttl: int, expires: int) {
    && expires <= validUntil && expires <= now + 120_000_000_000
    && (0 < ttl < 120_000_000_000 ==> expires <= now + ttl)
    && (expires == validUntil || expires == now + 120_000_000_000 || (0 < ttl < 120_000_000_000 && expires == now + ttl))
  }

  lemma AdmittedLeasesAreBounded(request: IssueRequest, now: int, ttl: int)
    ensures Admit(request, now, ttl).Some? <==>
              && request.wellFormed && request.authorization.Some?
              && request.signedBy == Some(request.authorization.value.publicKey)
              && now < request.authorization.value.validUntil
    ensures Admit(request, now, ttl).Some? ==>
              && now < Admit(request, now, ttl).value
              && Expiry(request.authorization.value.validUntil, now, ttl, Admit(request, now, ttl).value)
  {
  }

  // ---- the table and its lock regions ---------------------------------------------

  datatype Table = Table(active: map<string, Lease>, replays: set<RequestKey>, replayList: seq<RequestKey>)

  function Expired(active: map<string, Lease>, now: int): set<string> {
    set id | id in active && active[id].expires <= now
  }

  function Remember(t: Table, key: RequestKey): Table {
    if |t.replayList| >= MAX_REPLAYS then
      t.(replays := t.replays - {t.replayList[0]} + {key}, replayList := t.replayList[1..] + [key])
    else
      t.(replays := t.replays + {key}, replayList := t.replayList + [key])
  }

  datatype IssueVerdict = Replayed | CapacityReached | Inserted

  function IssueVerdictOf(t: Table, key: RequestKey, now: int): IssueVerdict {
    if key in t.replays then Replayed
    else if |(t.active - Expired(t.active, now))| >= MAX_ACTIVE then CapacityReached
    else Inserted
  }

  /** Issue's first lock region. A replayed request changes nothing; otherwise the
      table is pruned, and the lease inserted when there is room. */
  function IssueRegion(t: Table, key: RequestKey, id: string, lease: Lease, now: int): Table {
    match IssueVerdictOf(t, key, now)
    case Replayed => t
    case CapacityReached => t.(active := t.active - Expired(t.active, now))
    case Inserted =>
      var pruned := t.active - Expired(t.active, now);
      Remember(t, key).(active := pruned[id := lease])
  }

  lemma EmptyElems<T>()
    ensures Elems<T>([]) == {} && NoDup<T>([])
  {
  }

  lemma AppendElems<T>(list: seq<T>, x: T)
    ensures Elems(list + [x]) == Elems(list) + {x}
    ensures NoDup(list) && x !in Elems(list) ==> NoDup(list + [x])
  {
  }

  class Manager {
    var active: map<string, Lease>
    var replays: set<RequestKey>
    var replayList: seq<RequestKey>

    function Model(): Table
      reads this
    {
      Table(active, replays, replayList)
    }

    constructor ()
      ensures Model() == Table(map[], {}, [])
    {
      active, replays, replayList := map[], {}, [];
    }

    /** Ranges over the map in some order, deleting as it goes. */
    method PruneLocked(now: int) returns (expired: seq<string>)
      modifies this`active
      ensures Elems(expired) == Expired(old(active), now) && NoDup(expired)
      ensures active == old(active) - Expired(old(active), now)
    {
      hide Elems, NoDup;
      expired := [];
      EmptyElems<string>();
      ghost var gone: set<string> := {};
      var pending := active.Keys;
      while pending != {}
        invariant pending <= active.Keys
        invariant gone == Expired(old(active), now) - pending
        invariant active == old(active) - gone
        invariant Elems(expired) == gone && NoDup(expired)
        decreases |pending|
      {
        var id :| id in pending;
        pending := pending - {id};
        if active[id].expires <= now {
          active := active - {id};
          AppendElems(expired, id);
          expired, gone := expired + [id], gone + {id};
        }
      }
    }

    method RecordReplayLocked(key: RequestKey)
      modifies this`replays, this`replayList
      ensures Model() == Remember(old(Model()), key)
    {
      if |replayList| >= MAX_REPLAYS {
        replays := replays - {replayList[0]};
        replayList := replayList[1..];
      }
      replays := replays + {key};
      replayList := replayList + [key];
    }

    /** The caller must Close every returned lease once the mutex is released. */
    method IssueLocked(key: RequestKey, id: string, lease: Lease, now: int) returns (verdict: IssueVerdict, toClose: seq<string>)
      requires |active| <= MAX_ACTIVE
      modifies this
      ensures verdict == IssueVerdictOf(old(Model()), key, now)
      ensures Model() == IssueRegion(old(Model()), key, id, lease, now)
      ensures verdict == Inserted ==> Elems(toClose) == Expired(old(active), now) && NoDup(toClose)
      ensures verdict != Inserted ==> toClose == [] && Model() == old(Model())
    {
      if key in replays {
        return Replayed, [];
      }
      var expired := PruneLocked(now);
      if |active| >= MAX_ACTIVE {
        FullTablesPruneNothing(old(active), now);
        return CapacityReached, [];
      }
      RecordReplayLocked(key);
      active := active[id := lease];
      return Inserted, expired;
    }

    method LookupLocked(id: string) returns (lease: Option<Lease>)
      ensures lease == if id in active then Some(active[id]) else None
    {
      lease := if id in active then Some(active[id]) else None;
    }

    /** Release's second region: only the caller that still finds the lease removes it. */
    method ReleaseLocked(id: string, subject: string) returns (removed: bool)
      modifies this`active
      ensures removed <==> id in old(active) && old(active)[id].subject == subject
      ensures active == if removed then old(active) - {id} else old(active)
    {
      removed := id in active && active[id].subject == subject;
      if removed {
        active := active - {id};
      }
    }

    /** Issue's second region, after Broker.Open failed. */
    method ForgetLocked(id: string)
      modifies this`active
      ensures active == old(active) - {id}
    {
      active := active - {id};
    }
  }

  /** A table that just lost a lease to pruning is below capacity, so the
      capacity-reached return drops no lease it would have to close. */
  lemma FullTablesPruneNothing(active: map<string, Lease>, now: int)
    requires |active| <= MAX_ACTIVE && |(active - Expired(active, now))| >= MAX_ACTIVE
    ensures Expired(active, now) == {} && active - Expired(active, now) == active
  {
    var expired := Expired(active, now);
    var kept := active - expired;
    assert kept.Keys == active.Keys - expired;
    assert |active.Keys| == |kept.Keys| + |expired|;
  }

  // ---- interleaved calls ----------------------------------------------------------

  /** Where a call stands between two lock regions. */
  datatype Call =
    | Issuing(lease: string, target: string, toClose: set<string>) // closing pruned leases, then Open
    | OpenFailed(lease: string)                                    // before Issue's second region
    | Abandoned(lease: string)                                     // removed or already gone; Close still due
    | Releasing(lease: string, subject: string)                    // checked, before Release's second region
    | Released(lease: string)                                      // removed; Close still due

  function Owes(call: Call): set<string> {
    match call
    case Issuing(_, _, toClose) => toClose
    case Abandoned(lease) => {lease}
    case Released(lease) => {lease}
    case _ => {}
  }

  datatype Event =
    | Leased(id: string)
    | Removed(ids: set<string>)
    | Closed(id: string)
    | Opened(id: string)

  /** `released` lists the leases Release calls removed, `accepted` the request keys
      Issue recorded; both, like `log`, only grow. */
  datatype System = System(table: Table, calls: map<nat, Call>, log: seq<Event>, issued: set<string>,
                           released: seq<string>, accepted: seq<RequestKey>)

  datatype Step =
    | StartIssue(call: nat, request: IssueRequest, id: string, now: int, ttl: int)
    | CloseExpired(call: nat, id: string)
    | Open(call: nat, succeeds: bool)
    | Forget(call: nat)
    | StartRelease(call: nat, release: ReleaseRequest)
    | Remove(call: nat)
    | Close(call: nat)

  const EMPTY := System(Table(map[], {}, []), map[], [], {}, [], [])

  /** One atomic step of one call; a step that is not due changes nothing. Random
      lease IDs never repeat. */
  function Apply(s: System, step: Step): System {
    match step
    case StartIssue(call, request, id, now, ttl) => StartIssueStep(s, call, request, id, now, ttl)
    case CloseExpired(call, id) =>
      if call in s.calls && s.calls[call].Issuing? && id in s.calls[call].toClose then
        s.(calls := s.calls[call := s.calls[call].(toClose := s.calls[call].toClose - {id})], log := s.log + [Closed(id)])
      else s
    case Open(call, succeeds) =>
      if call in s.calls && s.calls[call].Issuing? && s.calls[call].toClose == {} then
        if succeeds then
          s.(calls := s.calls - {call}, log := s.log + [Opened(s.calls[call].lease)])
        else
          s.(calls := s.calls[call := OpenFailed(s.calls[call].lease)])
      else s
    case Forget(call) =>
      if call in s.calls && s.calls[call].OpenFailed? then
        Drop(s, s.calls[call].lease).(calls := s.calls[call := Abandoned(s.calls[call].lease)])
      else s
    case StartRelease(call, release) =>
      if call !in s.calls && release.wellFormed && release.lease in s.table.active
         && s.table.active[release.lease].subject == release.subject
         && release.signedBy == Some(s.table.active[release.lease].publicKey) then
        s.(calls := s.calls[call := Releasing(release.lease, release.subject)])
      else s
    case Remove(call) =>
      if call in s.calls && s.calls[call].Releasing? then
        var id := s.calls[call].lease;
        if id in s.table.active && s.table.active[id].subject == s.calls[call].subject then
          Drop(s, id).(calls := s.calls[call := Released(id)], released := s.released + [id])
        else
          s.(calls := s.calls - {call})
      else s
    case Close(call) =>
      if call in s.calls && (s.calls[call].Abandoned? || s.calls[call].Released?) then
        s.(calls := s.calls - {call}, log := s.log + [Closed(s.calls[call].lease)])
      else s
  }

  function Drop(s: System, id: string): System {
    if id in s.table.active then
      s.(table := s.table.(active := s.table.active - {id}), log := s.log + [Removed({id})])
    else s
  }

  function StartIssueStep(s: System, call: nat, request: IssueRequest, id: string, now: int, ttl: int): System {
    var expiry := Admit(request, now, ttl);
    if call in s.calls || id in s.issued || expiry.None? then s
    else
      var key := (request.subject, request.requestID);
      var lease := Lease(request.subject, request.target, expiry.value, request.authorization.value.publicKey);
      var table := IssueRegion(s.table, key, id, lease, now);
      match IssueVerdictOf(s.table, key, now)
      case Replayed => s
      case CapacityReached => s.(table := table)
      case Inserted =>
        var expired := Expired(s.table.active, now);
        System(table, s.calls[call := Issuing(id, request.target, expired)], s.log + [Removed(expired), Leased(id)],
               s.issued + {id}, s.released, s.accepted + [key])
  }

  /** The request is signed with the key of its authorization, which has not ended. */
  predicate Entitled(request: IssueRequest, now: int) {
    && request.wellFormed && request.authorization.Some?
    && request.signedBy == Some(request.authorization.value.publicKey) && now < request.authorization.value.validUntil
  }

  /** The leases that have not ended. */
  function Running(active: map<string, Lease>, now: int): map<string, Lease> {
    map id | id in active && now < active[id].expires :: active[id]
  }

  lemma RunningAreNotExpired(active: map<string, Lease>, now: int)
    ensures active - Expired(active, now) == Running(active, now)
    ensures active.Keys - Running(active, now).Keys == Expired(active, now)
  {
  }

  /** What one issuing step does: for an entitled request with a new ID, while fewer than 256
      leases run, exactly the ended leases go, to be closed by this call, and the new one
      comes in. In every other case nothing changes. */
  lemma IssueMeans(s: System, call: nat, request: IssueRequest, id: string, now: int, ttl: int)
    requires |s.table.active| <= 256 && call !in s.calls && id !in s.issued
    ensures var next := Apply(s, StartIssue(call, request, id, now, ttl));
            if Entitled(request, now) && (request.subject, request.requestID) !in s.table.replays
               && |Running(s.table.active, now)| < 256 then
              && id in next.table.active
              && next.table.active[id].subject == request.subject && next.table.active[id].target == request.target
              && next.table.active[id].publicKey == request.authorization.value.publicKey
              && Expiry(request.authorization.value.validUntil, now, ttl, next.table.active[id].expires)
              && next.table.active == Running(s.table.active, now)[id := next.table.active[id]]
              && (request.subject, request.requestID) in next.table.replays
              && next.accepted == s.accepted + [(request.subject, request.requestID)]
              && next.calls == s.calls[call := Issuing(id, request.target, s.table.active.Keys - Running(s.table.active, now).Keys)]
              && next.released == s.released
            else next == s
  {
    hide Admit, Expired, Running, Expiry;
    var active, expired := s.table.active, Expired(s.table.active, now);
    AdmittedLeasesAreBounded(request, now, ttl);
    RunningAreNotExpired(active, now);
    if |(active - expired)| >= MAX_ACTIVE {
      FullTablesPruneNothing(active, now);
    }
  }

  function Run(s: System, steps: seq<Step>): System
    decreases |steps|
  {
    if steps == [] then s else Run(Apply(s, steps[0]), steps[1..])
  }

  /** What the second region of a Release does: the lease goes if this subject still has it, and
      this call then owes its Close; otherwise another call took it, and this one is over. */
  lemma RemoveMeans(s: System, call: nat)
    requires call in s.calls && s.calls[call].Releasing?
    ensures var id, next := s.calls[call].lease, Apply(s, Remove(call));
            if id in s.table.active && s.table.active[id].subject == s.calls[call].subject then
              && next.table.active == s.table.active - {id} && next.released == s.released + [id]
              && call in next.calls && Owes(next.calls[call]) == {id}
            else
              next.table == s.table && next.released == s.released && next.calls == s.calls - {call} && next.log == s.log
  {
    hide Admit, IssueVerdictOf, IssueRegion, Expired;
  }

  // ---- what every interleaving keeps ----------------------------------------------

  predicate Tables(s: System) {
    && |s.table.active| <= MAX_ACTIVE
    && s.table.active.Keys <= s.issued
    && (forall i, id | 0 <= i < |s.log| && s.log[i].Removed? && id in s.log[i].ids :: id in s.issued && id !in s.table.active)
    && (forall id | id in s.issued :: id in s.table.active || WasRemoved(s, id))
  }

  predicate WasRemoved(s: System, id: string) {
    exists i | 0 <= i < |s.log| :: s.log[i].Removed? && id in s.log[i].ids
  }

  predicate ReleasedOnce(s: System) {
    && NoDup(s.released)
    && forall i | 0 <= i < |s.released| :: s.released[i] in s.issued && s.released[i] !in s.table.active
  }

  ghost predicate Replays(s: System) {
    && s.table.replayList == LastN(s.accepted, MAX_REPLAYS)
    && s.table.replays == Elems(s.table.replayList)
    && NeverInWindow(s.accepted, MAX_REPLAYS)
  }

  predicate ClosedAfter(log: seq<Event>, i: nat, id: string) {
    exists j | i < j < |log| :: log[j] == Closed(id)
  }

  predicate Owed(calls: map<nat, Call>, id: string) {
    exists call | call in calls :: id in Owes(calls[call])
  }

  /** Every removed lease has been closed since, or some call is still about to close it. */
  predicate Settled(s: System) {
    forall i, id | 0 <= i < |s.log| && s.log[i].Removed? && id in s.log[i].ids ::
      ClosedAfter(s.log, i, id) || Owed(s.calls, id)
  }

  ghost predicate Safe(s: System) {
    Tables(s) && ReleasedOnce(s) && Replays(s) && Settled(s)
  }

  lemma SettledByHandover(s: System, next: System)
    requires Settled(s) && s.log <= next.log
    requires forall id | Owed(s.calls, id) ::
               Owed(next.calls, id) || exists j | |s.log| <= j < |next.log| :: next.log[j] == Closed(id)
    requires forall i, id | |s.log| <= i < |next.log| && next.log[i].Removed? && id in next.log[i].ids :: Owed(next.calls, id)
    ensures Settled(next)
  {
    forall i, id | 0 <= i < |next.log| && next.log[i].Removed? && id in next.log[i].ids
      ensures ClosedAfter(next.log, i, id) || Owed(next.calls, id)
    {
      if i < |s.log| {
        assert next.log[i] == s.log[i];
        if ClosedAfter(s.log, i, id) {
          var j :| i < j < |s.log| && s.log[j] == Closed(id);
          assert next.log[j] == Closed(id);
        }
      }
    }
  }

  lemma OwedFrom(calls: map<nat, Call>, call: nat, id: string)
    requires call in calls && id in Owes(calls[call])
    ensures Owed(calls, id)
  {
  }

  lemma IssueKeepsReplays(s: System, call: nat, request: IssueRequest, id: string, now: int, ttl: int)
    requires Replays(s)
    ensures Replays(StartIssueStep(s, call, request, id, now, ttl))
  {
    var next := StartIssueStep(s, call, request, id, now, ttl);
    if next.accepted != s.accepted {
      var key := (request.subject, request.requestID);
      NeverInWindowExtends(s.accepted, key, MAX_REPLAYS);
      RememberedWindow(s.table, key, s.accepted);
    }
  }

  lemma IssueKeepsSettled(s: System, call: nat, request: IssueRequest, id: string, now: int, ttl: int)
    requires Tables(s) && Settled(s)
    ensures Settled(StartIssueStep(s, call, request, id, now, ttl))
  {
    var next := StartIssueStep(s, call, request, id, now, ttl);
    if next.log != s.log {
      var expired := Expired(s.table.active, now);
      assert next.log == s.log + [Removed(expired), Leased(id)];
      assert Owes(next.calls[call]) == expired && call !in s.calls;
      forall other | Owed(s.calls, other)
        ensures Owed(next.calls, other)
      {
        var holder :| holder in s.calls && other in Owes(s.calls[holder]);
        OwedFrom(next.calls, holder, other);
      }
      forall other | other in expired
        ensures Owed(next.calls, other)
      {
        OwedFrom(next.calls, call, other);
      }
      SettledByHandover(s, next);
    }
  }

  lemma IssueKeepsTables(s: System, call: nat, request: IssueRequest, id: string, now: int, ttl: int)
    requires Tables(s) && ReleasedOnce(s)
    ensures Tables(StartIssueStep(s, call, request, id, now, ttl))
    ensures ReleasedOnce(StartIssueStep(s, call, request, id, now, ttl))
  {
    var next := StartIssueStep(s, call, request, id, now, ttl);
    if next != s {
      if |(s.table.active - Expired(s.table.active, now))| >= MAX_ACTIVE {
        FullTablesPruneNothing(s.table.active, now);
      } else {
        InsertKeepsTables(s, next, id, Expired(s.table.active, now));
      }
    }
  }

  lemma RememberedWindow(t: Table, key: RequestKey, accepted: seq<RequestKey>)
    requires t.replayList == LastN(accepted, MAX_REPLAYS) && t.replays == Elems(t.replayList)
    requires NeverInWindow(accepted, MAX_REPLAYS) && key !in t.replays
    ensures Remember(t, key).replayList == LastN(accepted + [key], MAX_REPLAYS)
    ensures Remember(t, key).replays == Elems(Remember(t, key).replayList)
  {
    WindowStep(accepted, key, MAX_REPLAYS);
    WindowHasNoDuplicates(accepted, MAX_REPLAYS);
    ShiftedElems(t.replayList, key);
  }

  /** Evicting the head and appending a new entry, seen as sets. */
  lemma ShiftedElems<T>(list: seq<T>, x: T)
    requires NoDup(list)
    ensures list != [] ==> Elems(list[1..] + [x]) == Elems(list) - {list[0]} + {x}
    ensures Elems(list + [x]) == Elems(list) + {x}
  {
    if list != [] {
      assert list == [list[0]] + list[1..];
    }
  }

  lemma InsertKeepsTables(s: System, next: System, id: string, expired: set<string>)
    requires Tables(s) && id !in s.issued
    requires expired <= s.table.active.Keys && |(s.table.active - expired)| < MAX_ACTIVE
    requires next.table.active.Keys == s.table.active.Keys - expired + {id}
    requires next.log == s.log + [Removed(expired), Leased(id)] && next.issued == s.issued + {id}
    ensures Tables(next)
  {
    hide WasRemoved;
    InsertCounts(s.table.active, next.table.active, id, expired);
    forall i, other | 0 <= i < |next.log| && next.log[i].Removed? && other in next.log[i].ids
      ensures other in next.issued && other !in next.table.active
    {
      if i < |s.log| {
        assert next.log[i] == s.log[i];
      } else {
        assert i == |s.log|;
      }
    }
    forall other | other in next.issued
      ensures other in next.table.active || WasRemoved(next, other)
    {
      if other != id && other !in next.table.active {
        RemovedNowOrBefore(s, next, expired, other);
      }
    }
  }

  lemma InsertCounts(active: map<string, Lease>, next: map<string, Lease>, id: string, expired: set<string>)
    requires next.Keys == active.Keys - expired + {id} && |(active - expired)| < MAX_ACTIVE
    ensures |next| <= MAX_ACTIVE
  {
    assert (active - expired).Keys == active.Keys - expired;
    assert |next.Keys| <= |(active - expired).Keys| + 1;
  }

  lemma RemovedNowOrBefore(s: System, next: System, expired: set<string>, other: string)
    requires |s.log| < |next.log| && next.log[..|s.log|] == s.log && next.log[|s.log|] == Removed(expired)
    requires other in expired || WasRemoved(s, other)
    ensures WasRemoved(next, other)
  {
    if other !in expired {
      var i :| 0 <= i < |s.log| && s.log[i].Removed? && other in s.log[i].ids;
      assert next.log[i] == s.log[i];
    }
  }

  lemma DropKeepsTables(s: System, id: string)
    requires Tables(s)
    ensures Tables(Drop(s, id))
  {
    var next := Drop(s, id);
    if id in s.table.active {
      assert next.table.active.Keys == s.table.active.Keys - {id};
      assert next.log[|s.log|] == Removed({id});
      forall other | other in next.issued
        ensures other in next.table.active || WasRemoved(next, other)
      {
        if other !in next.table.active {
          if other == id {
            assert other in next.log[|s.log|].ids;
          } else {
            var i :| 0 <= i < |s.log| && s.log[i].Removed? && other in s.log[i].ids;
            assert next.log[i] == s.log[i];
          }
        }
      }
    }
  }

  lemma NewClosureKeepsTables(s: System, next: System)
    requires Tables(s) && next.table == s.table && next.issued == s.issued
    requires s.log <= next.log && forall i | |s.log| <= i < |next.log| :: !next.log[i].Removed?
    ensures Tables(next)
  {
    forall id | id in next.issued
      ensures id in next.table.active || WasRemoved(next, id)
    {
      if id !in s.table.active {
        var i :| 0 <= i < |s.log| && s.log[i].Removed? && id in s.log[i].ids;
        assert next.log[i] == s.log[i];
      }
    }
  }

  lemma DropStepKeepsTables(s: System, step: Step)
    requires Tables(s) && ReleasedOnce(s) && (step.Forget? || step.Remove?)
    ensures Tables(Apply(s, step)) && ReleasedOnce(Apply(s, step))
  {
    var next := Apply(s, step);
    if next != s {
      var id := s.calls[step.call].lease;
      var dropped := Drop(s, id);
      DropKeepsTables(s, id);
      assert next.table == s.table || next.table == dropped.table;
      assert next.issued == s.issued && (next.log == s.log || next.log == dropped.log);
      SameTables(if next.table == s.table && next.log == s.log then s else dropped, next);
    }
  }

  lemma SameTables(s: System, next: System)
    requires Tables(s) && next.table == s.table && next.log == s.log && next.issued == s.issued
    ensures Tables(next)
  {
    assert forall id | WasRemoved(s, id) :: WasRemoved(next, id);
  }

  lemma OtherStepsKeepTables(s: System, step: Step)
    requires Tables(s) && ReleasedOnce(s) && !step.StartIssue? && !step.Forget? && !step.Remove?
    ensures Tables(Apply(s, step)) && ReleasedOnce(Apply(s, step))
  {
    NewClosureKeepsTables(s, Apply(s, step));
  }

  lemma StepKeepsSettled(s: System, step: Step)
    requires Settled(s) && !step.StartIssue?
    ensures Settled(Apply(s, step))
  {
    var next := Apply(s, step);
    if next != s {
      var call := step.call;
      forall id | Owed(s.calls, id)
        ensures Owed(next.calls, id) || exists j | |s.log| <= j < |next.log| :: next.log[j] == Closed(id)
      {
        var holder :| holder in s.calls && id in Owes(s.calls[holder]);
        if holder in next.calls && id in Owes(next.calls[holder]) {
          OwedFrom(next.calls, holder, id);
        } else {
          assert next.log[|s.log|] == Closed(id);
        }
      }
      if call in next.calls {
        forall id | id in Owes(next.calls[call])
          ensures Owed(next.calls, id)
        {
          OwedFrom(next.calls, call, id);
        }
      }
      SettledByHandover(s, next);
    }
  }

  lemma StepKeepsSafe(s: System, step: Step)
    requires Safe(s)
    ensures Safe(Apply(s, step))
  {
    if step.StartIssue? {
      IssueKeepsTables(s, step.call, step.request, step.id, step.now, step.ttl);
      IssueKeepsSettled(s, step.call, step.request, step.id, step.now, step.ttl);
      IssueKeepsReplays(s, step.call, step.request, step.id, step.now, step.ttl);
    } else {
      if step.Forget? || step.Remove? {
        DropStepKeepsTables(s, step);
      } else {
        OtherStepsKeepTables(s, step);
      }
      StepKeepsSettled(s, step);
      OtherStepsKeepReplays(s, step);
    }
  }

  lemma OtherStepsKeepReplays(s: System, step: Step)
    requires !step.StartIssue?
    ensures var next := Apply(s, step);
            next.accepted == s.accepted && next.table.replays == s.table.replays && next.table.replayList == s.table.replayList
  {
  }

  /** Every interleaving of any number of calls, at every point. */
  lemma {:induction false} EveryInterleavingIsSafe(s: System, steps: seq<Step>)
    requires Safe(s)
    ensures Safe(Run(s, steps))
    decreases |steps|
  {
    if steps != [] {
      StepKeepsSafe(s, steps[0]);
      EveryInterleavingIsSafe(Apply(s, steps[0]), steps[1..]);
    }
  }

  lemma EmptyIsSafe()
    ensures Safe(EMPTY)
  {
    assert EMPTY.accepted == [] && LastN(EMPTY.accepted, MAX_REPLAYS) == [];
  }

  lemma Capacity(steps: seq<Step>)
    ensures |Run(EMPTY, steps).table.active| <= 256
  {
    EmptyIsSafe();
    EveryInterleavingIsSafe(EMPTY, steps);
  }

  /** No lease is removed by two Release calls, however they interleave. */
  lemma AtMostOneRelease(steps: seq<Step>, i: nat, j: nat)
    requires i < j < |Run(EMPTY, steps).released|
    ensures Run(EMPTY, steps).released[i] != Run(EMPTY, steps).released[j]
  {
    EmptyIsSafe();
    EveryInterleavingIsSafe(EMPTY, steps);
  }

  /** Once no call is in progress, every lease ever issued is still active or was
      removed and closed after its removal. */
  lemma NothingLeaksAtRest(steps: seq<Step>, id: string)
    requires Run(EMPTY, steps).calls == map[] && id in Run(EMPTY, steps).issued
    ensures var s := Run(EMPTY, steps);
            id in s.table.active
            || exists i, j | 0 <= i < j < |s.log| :: s.log[i].Removed? && id in s.log[i].ids && s.log[j] == Closed(id)
  {
    EmptyIsSafe();
    EveryInterleavingIsSafe(EMPTY, steps);
    var s := Run(EMPTY, steps);
    if id !in s.table.active {
      var i :| 0 <= i < |s.log| && s.log[i].Removed? && id in s.log[i].ids;
      assert ClosedAfter(s.log, i, id);
      var j :| i < j < |s.log| && s.log[j] == Closed(id);
    }
  }

  lemma ReplaysAreFarApart(s: System, i: nat, j: nat)
    requires Replays(s) && i < j < |s.accepted| && s.accepted[i] == s.accepted[j]
    ensures i + MAX_REPLAYS < j
    ensures s.accepted[j] !in s.accepted[j - MAX_REPLAYS..j] && |Elems(s.accepted[j - MAX_REPLAYS..j])| == MAX_REPLAYS
  {
    RepeatsAreFarApart(s.accepted, MAX_REPLAYS, i, j);
  }

  /** A request key accepted twice has 4096 other, pairwise different keys in between. */
  lemma RequestReplayDistance(steps: seq<Step>, i: nat, j: nat)
    requires i < j < |Run(EMPTY, steps).accepted| && Run(EMPTY, steps).accepted[i] == Run(EMPTY, steps).accepted[j]
    ensures var h := Run(EMPTY, steps).accepted;
            i + 4096 < j && h[j] !in h[j - 4096..j] && |Elems(h[j - 4096..j])| == 4096
  {
    hide Run, Replays, NeverInWindow, Elems;
    EmptyIsSafe();
    EveryInterleavingIsSafe(EMPTY, steps);
    ReplaysAreFarApart(Run(EMPTY, steps), i, j);
  }

  // ---- who releases ---------------------------------------------------------------

  /** Step `j` asks for the lease, signed with the key of its authorization. */
  predicate AsksFor(step: Step, id: string, subject: string, key: string) {
    && step.StartIssue? && step.id == id && step.request.subject == subject
    && step.request.authorization.Some? && step.request.authorization.value.publicKey == key
    && step.request.signedBy == Some(key)
  }

  /** The step asks to release the lease, signed with that key. */
  predicate AsksRelease(step: Step, id: string, subject: string, key: string) {
    && step.StartRelease? && step.release.wellFormed && step.release.lease == id && step.release.subject == subject
    && step.release.signedBy == Some(key)
  }

  ghost predicate AskedFor(steps: seq<Step>, id: string, subject: string, key: string) {
    exists j | 0 <= j < |steps| :: AsksFor(steps[j], id, subject, key)
  }

  /** The lease was asked for, and later its release, by the same subject with the same key. */
  ghost predicate ReleaseWasAsked(steps: seq<Step>, id: string) {
    exists j, k, subject, key | 0 <= j < k < |steps| :: AsksFor(steps[j], id, subject, key) && AsksRelease(steps[k], id, subject, key)
  }

  /** What the steps taken so far say of every active lease and every release. */
  ghost predicate Explained(steps: seq<Step>, s: System) {
    && (forall id | id in s.table.active :: AskedFor(steps, id, s.table.active[id].subject, s.table.active[id].publicKey))
    && (forall call | call in s.calls && s.calls[call].Releasing? :: ReleaseWasAsked(steps, s.calls[call].lease))
    && (forall i | 0 <= i < |s.released| :: ReleaseWasAsked(steps, s.released[i]))
  }

  lemma AskedBefore(steps: seq<Step>, step: Step, id: string)
    ensures ReleaseWasAsked(steps, id) ==> ReleaseWasAsked(steps + [step], id)
    ensures forall subject, key :: AskedFor(steps, id, subject, key) ==> AskedFor(steps + [step], id, subject, key)
  {
    hide AsksFor, AsksRelease;
    var more := steps + [step];
    if ReleaseWasAsked(steps, id) {
      var j, k, subject, key :| 0 <= j < k < |steps| && AsksFor(steps[j], id, subject, key) && AsksRelease(steps[k], id, subject, key);
      assert AsksFor(more[j], id, subject, key) && AsksRelease(more[k], id, subject, key);
    }
    forall subject, key | AskedFor(steps, id, subject, key)
      ensures AskedFor(more, id, subject, key)
    {
      var j :| 0 <= j < |steps| && AsksFor(steps[j], id, subject, key);
      assert AsksFor(more[j], id, subject, key);
    }
  }

  /** Which steps add a lease, a release in progress or a release. */
  lemma StepAddsLease(s: System, step: Step, id: string)
    requires id in Apply(s, step).table.active
    ensures var lease := Apply(s, step).table.active[id];
            (id in s.table.active && lease == s.table.active[id]) || AsksFor(step, id, lease.subject, lease.publicKey)
  {
    hide AsksFor;
    if step.StartIssue? {
      hide Apply;
      IssueAddsLease(s, step, id);
    } else {
      hide StartIssueStep;
    }
  }

  lemma IssueAddsLease(s: System, step: Step, id: string)
    requires step.StartIssue? && id in Apply(s, step).table.active
    ensures var lease := Apply(s, step).table.active[id];
            (id in s.table.active && lease == s.table.active[id]) || AsksFor(step, id, lease.subject, lease.publicKey)
  {
    hide Admit, Expired, IssueVerdictOf, Remember;
    AdmittedLeasesAreBounded(step.request, step.now, step.ttl);
  }

  lemma StepAddsReleasing(s: System, step: Step, call: nat)
    requires call in Apply(s, step).calls && Apply(s, step).calls[call].Releasing?
    requires !(call in s.calls && s.calls[call] == Apply(s, step).calls[call])
    ensures var id := Apply(s, step).calls[call].lease;
            id in s.table.active && AsksRelease(step, id, s.table.active[id].subject, s.table.active[id].publicKey)
  {
    hide Admit, IssueVerdictOf, IssueRegion, Expired;
  }

  lemma StepAddsReleased(s: System, step: Step)
    ensures Apply(s, step).released == s.released
            || exists call | call in s.calls && s.calls[call].Releasing? :: Apply(s, step).released == s.released + [s.calls[call].lease]
  {
    hide Admit, IssueVerdictOf, IssueRegion, Expired;
  }

  lemma StepExplains(steps: seq<Step>, s: System, step: Step)
    requires Explained(steps, s)
    ensures Explained(steps + [step], Apply(s, step))
  {
    hide Apply, AsksFor, AsksRelease, AskedFor, ReleaseWasAsked;
    var next, more := Apply(s, step), steps + [step];
    StepAddsReleased(s, step);
    forall id | id in next.table.active
      ensures AskedFor(more, id, next.table.active[id].subject, next.table.active[id].publicKey)
    {
      StepAddsLease(s, step, id);
      AskedBefore(steps, step, id);
      if AsksFor(step, id, next.table.active[id].subject, next.table.active[id].publicKey) {
        AskedLast(steps, step, id, next.table.active[id]);
      }
    }
    forall call | call in next.calls && next.calls[call].Releasing?
      ensures ReleaseWasAsked(more, next.calls[call].lease)
    {
      var id := next.calls[call].lease;
      AskedBefore(steps, step, id);
      if !(call in s.calls && next.calls[call] == s.calls[call]) {
        StepAddsReleasing(s, step, call);
        AskedNow(steps, step, id, s.table.active[id]);
      }
    }
    forall i | 0 <= i < |next.released|
      ensures ReleaseWasAsked(more, next.released[i])
    {
      AskedBefore(steps, step, next.released[i]);
    }
  }

  lemma AskedLast(steps: seq<Step>, step: Step, id: string, lease: Lease)
    requires AsksFor(step, id, lease.subject, lease.publicKey)
    ensures AskedFor(steps + [step], id, lease.subject, lease.publicKey)
  {
    assert AsksFor((steps + [step])[|steps|], id, lease.subject, lease.publicKey);
  }

  lemma AskedNow(steps: seq<Step>, step: Step, id: string, lease: Lease)
    requires AskedFor(steps, id, lease.subject, lease.publicKey) && AsksRelease(step, id, lease.subject, lease.publicKey)
    ensures ReleaseWasAsked(steps + [step], id)
  {
    hide AsksFor, AsksRelease;
    var more := steps + [step];
    var j :| 0 <= j < |steps| && AsksFor(steps[j], id, lease.subject, lease.publicKey);
    assert AsksFor(more[j], id, lease.subject, lease.publicKey) && AsksRelease(more[|steps|], id, lease.subject, lease.publicKey);
  }

  lemma {:induction false} RunExplains(done: seq<Step>, s: System, steps: seq<Step>)
    requires Explained(done, s)
    ensures Explained(done + steps, Run(s, steps))
    decreases |steps|
  {
    hide Explained, Apply;
    if steps == [] {
      assert done + steps == done;
    } else {
      StepExplains(done, s, steps[0]);
      RunExplains(done + [steps[0]], Apply(s, steps[0]), steps[1..]);
      assert done + [steps[0]] + steps[1..] == done + steps;
    }
  }

  /** However the calls interleave: a lease that a Release removed was issued to a subject
      who signed for it, and the same subject signed its release with the same key; and
      every active lease belongs to the subject whose key signed for it. */
  lemma ReleasedByItsSubject(steps: seq<Step>)
    ensures forall i | 0 <= i < |Run(EMPTY, steps).released| :: ReleaseWasAsked(steps, Run(EMPTY, steps).released[i])
    ensures forall id | id in Run(EMPTY, steps).table.active ::
              var lease := Run(EMPTY, steps).table.active[id];
              AskedFor(steps, id, lease.subject, lease.publicKey)
  {
    RunExplains([], EMPTY, steps);
    assert [] + steps == steps;
  }
}
