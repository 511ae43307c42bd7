/** What may happen in which order, and what follows from it over any run. */
module EnrollmentHistory {
  import opened Common
  import opened Identity
  import opened Snapshots
  import opened Enrollment

  // ---- what a history says -------------------------------------------------------------

  function Init(log: seq<Event>): seq<Event>
    requires log != []
  {
    log[..|log| - 1]
  }

  function Last(log: seq<Event>): Event
    requires log != []
  {
    log[|log| - 1]
  }

  function OwnerIn(log: seq<Event>): Option<(string, Key)> {
    if log == [] then None
    else match Last(log)
      case Installed(owner, key) => Some((owner, key))
      case _ => OwnerIn(Init(log))
  }

  /** All accepted Owner request IDs, oldest first. */
  function OwnerHistory(log: seq<Event>): seq<string> {
    if log == [] then []
    else OwnerHistory(Init(log)) + match Last(log)
      case OwnerAccepted(id) => [id]
      case _ => []
  }

  /** The accepted request IDs of a Device since its history was last dropped. */
  function DeviceHistory(log: seq<Event>, device: string): seq<string> {
    if log == [] then []
    else match Last(log)
      case DeviceAccepted(d, id) => DeviceHistory(Init(log), device) + if d == device then [id] else []
      case BucketsDropped(devices) => if device in devices then [] else DeviceHistory(Init(log), device)
      case _ => DeviceHistory(Init(log), device)
  }

  function LastWindow(log: seq<Event>): int {
    if log == [] then 0
    else match Last(log)
      case WindowOpened(at) => at
      case _ => LastWindow(Init(log))
  }

  function AttemptsSince(log: seq<Event>): nat {
    if log == [] then 0
    else match Last(log)
      case WindowOpened(_) => 0
      case WrongCode(_) => AttemptsSince(Init(log)) + 1
      case _ => AttemptsSince(Init(log))
  }

  /** Empty for a Device that was never registered. */
  function StatusIn(log: seq<Event>, device: string): string {
    if log == [] then ""
    else match Last(log)
      case Installed(owner, _) => if owner == device then ACTIVE else StatusIn(Init(log), device)
      case Activated(_, d, _, _) => if d == device then ACTIVE else StatusIn(Init(log), device)
      case RevokedBy(d, _) => if d == device then REVOKED else StatusIn(Init(log), device)
      case _ => StatusIn(Init(log), device)
  }

  function BeginOf(log: seq<Event>, code: Code): (begin: Option<Event>)
    ensures begin.Some? ==> begin.value.Began? && begin.value.code == code
  {
    if log == [] then None
    else if Last(log).Began? && Last(log).code == code then Some(Last(log))
    else BeginOf(Init(log), code)
  }

  predicate ApprovedIn(log: seq<Event>, code: Code) {
    log != [] && ((Last(log).ApprovalGiven? && Last(log).code == code) || ApprovedIn(Init(log), code))
  }

  predicate ActivatedIn(log: seq<Event>, code: Code) {
    log != [] && ((Last(log).Activated? && Last(log).code == code) || ActivatedIn(Init(log), code))
  }

  /** Activations, revocations and changed bindings. */
  function DirectoryChanges(log: seq<Event>): nat {
    if log == [] then 0
    else DirectoryChanges(Init(log)) + if Last(log).Activated? || Last(log).RevokedBy? || Last(log).BindingChanged? then 1 else 0
  }

  function Revocations(log: seq<Event>): nat {
    if log == [] then 0 else Revocations(Init(log)) + if Last(log).RevokedBy? then 1 else 0
  }

  // ---- what may happen next ---------------------------------------------------------------

  predicate OwnerSigned(log: seq<Event>, message: Message, signature: Signature<Message>) {
    OwnerIn(log).Some? && Verifies(OwnerIn(log).value.1, message, signature)
  }

  predicate SignedRevocation(log: seq<Event>, device: string, signature: Signature<Message>) {
    && OwnerIn(log).Some? && signature.SignedBy? && signature.key == OwnerIn(log).value.1
    && signature.message.RevokeMessage? && signature.message.owner == OwnerIn(log).value.0 && signature.message.device == device
  }

  /** The Device itself asked to be enrolled: the begin is signed with the key its ID shows. */
  predicate SignedBegin(device: string, key: Key, signature: Signature<Message>) {
    && signature.SignedBy? && signature.key == key && signature.message.AuthorizeMessage?
    && signature.message.device == device && signature.message.key == key
  }

  ghost predicate May(log: seq<Event>, e: Event) {
    match e
    case Installed(owner, key) => log == [] && ValidKey(key) && owner == DeviceID(key)
    case OwnerAccepted(id) => id !in LastN(OwnerHistory(log), MAX_OWNER_REPLAY_IDS)
    case DeviceAccepted(device, id) => id !in LastN(DeviceHistory(log, device), MAX_DEVICE_REPLAY_IDS)
    case BucketsDropped(devices) => forall d | d in devices :: StatusIn(log, d) == ""
    case Began(code, _, device, key, at, expires, signature) =>
      && SignedBegin(device, key, signature) && BeginOf(log, code).None? && ValidKey(key) && device == DeviceID(key)
      && expires == at + ACTIVATION_TTL && StatusIn(log, device) != ACTIVE
    case WindowOpened(at) => at > 0 && (LastWindow(log) == 0 || at - LastWindow(log) >= MINUTE)
    case WrongCode(at) => LastWindow(log) != 0 && at - LastWindow(log) < MINUTE && AttemptsSince(log) < MAX_CODE_ATTEMPTS
    case ApprovalGiven(code, at, requestID, version, signature) =>
      && BeginOf(log, code).Some? && at < BeginOf(log, code).value.expires && OwnerIn(log).Some?
      && OwnerSigned(log, ApproveMessage(OwnerIn(log).value.0, BeginOf(log, code).value.userCode, requestID, version), signature)
    case Activated(code, device, key, at) =>
      && BeginOf(log, code).Some? && BeginOf(log, code).value.device == device && BeginOf(log, code).value.key == key
      && at < BeginOf(log, code).value.expires && ApprovedIn(log, code) && !ActivatedIn(log, code) && StatusIn(log, device) != ACTIVE
    case RevokedBy(device, signature) =>
      && StatusIn(log, device) == ACTIVE && SignedRevocation(log, device, signature) && OwnerIn(log).value.0 != device
    case BindingChanged(device, _) => StatusIn(log, device) == ACTIVE
  }

  ghost predicate Lawful(log: seq<Event>) {
    log == [] || (Lawful(Init(log)) && May(Init(log), Last(log)))
  }

  lemma Extends(log: seq<Event>, e: Event)
    ensures Init(log + [e]) == log && Last(log + [e]) == e
  {
  }

  lemma LawfulExtends(log: seq<Event>, e: Event)
    requires Lawful(log) && May(log, e)
    ensures Lawful(log + [e])
  {
    hide May;
    Extends(log, e);
  }

  lemma {:induction false} LawfulAt(log: seq<Event>, k: nat)
    requires Lawful(log) && k < |log|
    ensures Lawful(log[..k]) && May(log[..k], log[k])
  {
    hide May;
    if k < |log| - 1 {
      LawfulAt(Init(log), k);
      assert Init(log)[..k] == log[..k];
    }
  }

  // ---- activation ------------------------------------------------------------------------------

  lemma {:induction false} BeginAt(log: seq<Event>, code: Code) returns (i: nat)
    requires BeginOf(log, code).Some?
    ensures i < |log| && log[i].Began? && log[i].code == code && BeginOf(log, code) == Some(log[i])
    ensures BeginOf(log[..i + 1], code) == BeginOf(log, code)
  {
    if Last(log).Began? && Last(log).code == code {
      i := |log| - 1;
      assert log[..i + 1] == log;
    } else {
      i := BeginAt(Init(log), code);
      assert Init(log)[..i + 1] == log[..i + 1];
    }
  }

  lemma {:induction false} BeginStays(log: seq<Event>, n: nat, code: Code)
    requires n <= |log| && BeginOf(log[..n], code).Some? && Lawful(log)
    ensures BeginOf(log, code) == BeginOf(log[..n], code)
  {
    hide May;
    if n < |log| {
      assert Init(log)[..n] == log[..n];
      BeginStays(Init(log), n, code);
      NoSecondBegin(log, code);
    } else {
      assert log[..n] == log;
    }
  }

  lemma NoSecondBegin(log: seq<Event>, code: Code)
    requires log != [] && Lawful(log) && BeginOf(Init(log), code).Some?
    ensures !(Last(log).Began? && Last(log).code == code)
  {
  }

  lemma {:induction false} ApprovalAt(log: seq<Event>, code: Code) returns (j: nat)
    requires ApprovedIn(log, code)
    ensures j < |log| && log[j].ApprovalGiven? && log[j].code == code
  {
    if Last(log).ApprovalGiven? && Last(log).code == code {
      j := |log| - 1;
    } else {
      j := ApprovalAt(Init(log), code);
    }
  }

  lemma {:induction false} ActivatedBefore(log: seq<Event>, code: Code, k: nat)
    requires k < |log| && log[k].Activated? && log[k].code == code
    ensures ActivatedIn(log, code)
  {
    if k < |log| - 1 {
      ActivatedBefore(Init(log), code, k);
    }
  }

  lemma {:induction false} OwnerStays(log: seq<Event>, n: nat)
    requires n <= |log| && Lawful(log) && OwnerIn(log[..n]).Some?
    ensures OwnerIn(log) == OwnerIn(log[..n])
  {
    hide May;
    if n < |log| {
      assert Init(log)[..n] == log[..n];
      OwnerStays(Init(log), n);
      NoSecondOwner(log);
    } else {
      assert log[..n] == log;
    }
  }

  lemma NoSecondOwner(log: seq<Event>)
    requires log != [] && Lawful(log) && OwnerIn(Init(log)).Some?
    ensures !Last(log).Installed?
  {
  }

  /** Log entry `i` began the activation that entry `j` approved and entry `k` completed. */
  ghost predicate Traced(log: seq<Event>, i: nat, j: nat, k: nat)
    requires k < |log| && log[k].Activated?
  {
    && i < j < k && log[i].Began? && log[j].ApprovalGiven?
    && log[i].code == log[j].code == log[k].code && log[i].device == log[k].device && log[i].key == log[k].key
    && SignedBegin(log[i].device, log[i].key, log[i].signature)
    && log[j].at < log[i].expires && log[k].at < log[i].expires && log[i].expires == log[i].at + 600_000_000_000
    && OwnerIn(log).Some?
    && Verifies(OwnerIn(log).value.1, ApproveMessage(OwnerIn(log).value.0, log[i].userCode, log[j].requestID, log[j].version), log[j].signature)
  }

  /** A Device becomes active only after its own begin and then an Owner-signed approval
      of exactly that begin's user code, both before that begin expires. */
  lemma ActivationIsApproved(log: seq<Event>, k: nat) returns (i: nat, j: nat)
    requires Lawful(log) && k < |log| && log[k].Activated?
    ensures Traced(log, i, j, k)
  {
    hide Lawful, OwnerIn, BeginOf, ApprovedIn, ActivatedIn, StatusIn;
    LawfulAt(log, k);
    var code := log[k].code;
    j := ApprovalAt(log[..k], code);
    LawfulAt(log, j);
    assert log[..k][..j] == log[..j];
    i := BeginAt(log[..j], code);
    BeginStays(log[..k], j, code);
    LawfulAt(log, i);
    OwnerStays(log, j);
  }

  /** Each begin is completed at most once. */
  lemma ActivatesOnce(log: seq<Event>, k: nat, m: nat)
    requires Lawful(log) && k < m < |log| && log[k].Activated? && log[m].Activated?
    ensures log[k].code != log[m].code
  {
    hide Lawful, OwnerIn, BeginOf, ApprovedIn, StatusIn;
    LawfulAt(log, m);
    if log[k].code == log[m].code {
      ActivatedBefore(log[..m], log[m].code, k);
    }
  }

  /** Every Device but the Owner that is active was activated, and not revoked since. */
  lemma {:induction false} ActiveWasActivated(log: seq<Event>, device: string) returns (k: nat)
    requires Lawful(log) && StatusIn(log, device) == ACTIVE && OwnerIn(log) != None && OwnerIn(log).value.0 != device
    ensures k < |log| && log[k].Activated? && log[k].device == device
    ensures forall m | k < m < |log| :: !(log[m].RevokedBy? && log[m].device == device)
  {
    if Last(log).Activated? && Last(log).device == device {
      k := |log| - 1;
    } else {
      assert OwnerIn(Init(log)) == OwnerIn(log) && StatusIn(Init(log), device) == ACTIVE;
      k := ActiveWasActivated(Init(log), device);
    }
  }

  // ---- replay -------------------------------------------------------------------------------

  lemma {:induction false} OwnerIDsNeverInWindow(log: seq<Event>)
    requires Lawful(log)
    ensures NeverInWindow(OwnerHistory(log), MAX_OWNER_REPLAY_IDS)
  {
    if log != [] {
      OwnerIDsNeverInWindow(Init(log));
      if Last(log).OwnerAccepted? {
        NeverInWindowExtends(OwnerHistory(Init(log)), Last(log).id, MAX_OWNER_REPLAY_IDS);
      }
    }
  }

  lemma {:induction false} DeviceIDsNeverInWindow(log: seq<Event>, device: string)
    requires Lawful(log)
    ensures NeverInWindow(DeviceHistory(log, device), MAX_DEVICE_REPLAY_IDS)
  {
    hide May;
    if log != [] {
      DeviceIDsNeverInWindow(Init(log), device);
      if Last(log).DeviceAccepted? && Last(log).device == device {
        DeviceStep(log);
        NeverInWindowExtends(DeviceHistory(Init(log), device), Last(log).id, MAX_DEVICE_REPLAY_IDS);
      }
    }
  }

  lemma DeviceStep(log: seq<Event>)
    requires Lawful(log) && log != [] && Last(log).DeviceAccepted?
    ensures Last(log).id !in LastN(DeviceHistory(Init(log), Last(log).device), MAX_DEVICE_REPLAY_IDS)
  {
  }

  /** Histories of two stretches follow one another. */
  lemma {:induction false} OwnerHistorySplits(log: seq<Event>, n: nat)
    requires n <= |log|
    ensures OwnerHistory(log) == OwnerHistory(log[..n]) + OwnerHistory(log[n..])
  {
    if n == |log| {
      assert log[..n] == log && log[n..] == [];
    } else {
      OwnerHistorySplits(Init(log), n);
      assert Init(log)[..n] == log[..n] && Init(log)[n..] == Init(log[n..]);
    }
  }

  lemma RepeatedAfterMany(before: seq<string>, between: seq<string>, id: string, capacity: nat)
    requires before != [] && before[|before| - 1] == id && NeverInWindow(before + between + [id], capacity)
    ensures |Elems(between) - {id}| >= capacity
  {
    hide NeverInWindow;
    var history := before + between + [id];
    var last := |history| - 1;
    RepeatsAreFarApart(history, capacity, |before| - 1, last);
    var window := history[last - capacity..last];
    assert window == between[|between| - capacity..];
    assert Elems(window) <= Elems(between) - {id};
    SubsetIsSmaller(Elems(window), Elems(between) - {id});
  }

  /** Cutting a log around two of its entries. */
  lemma Around(log: seq<Event>, i: nat, j: nat)
    requires i < j < |log|
    ensures log[..j + 1][..j] == log[..j] && log[..j][..i + 1] == log[..i + 1] && log[..i + 1][..i] == log[..i]
    ensures log[..j][i + 1..] == log[i + 1..j]
    ensures Init(log[..j + 1]) == log[..j] && Last(log[..j + 1]) == log[j]
    ensures Init(log[..i + 1]) == log[..i] && Last(log[..i + 1]) == log[i]
  {
  }

  /** If the Owner's request ID is accepted twice, at least 4096 other IDs were in between. */
  lemma OwnerReplayDistance(log: seq<Event>, i: nat, j: nat)
    requires Lawful(log) && i < j < |log| && log[i].OwnerAccepted? && log[j] == log[i]
    ensures |Elems(OwnerHistory(log[i + 1..j])) - {log[i].id}| >= 4096
  {
    hide Lawful, NeverInWindow, Elems;
    var id := log[i].id;
    Around(log, i, j);
    LawfulPrefix(log, j + 1);
    OwnerIDsNeverInWindow(log[..j + 1]);
    OwnerHistorySplits(log[..j], i + 1);
    var before, between := OwnerHistory(log[..i + 1]), OwnerHistory(log[i + 1..j]);
    assert OwnerHistory(log[..j + 1]) == before + between + [id];
    RepeatedAfterMany(before, between, id, MAX_OWNER_REPLAY_IDS);
  }

  lemma {:induction false} LawfulPrefix(log: seq<Event>, n: nat)
    requires Lawful(log) && n <= |log|
    ensures Lawful(log[..n])
  {
    hide May;
    if n < |log| {
      LawfulAt(log, n);
    } else {
      assert log[..n] == log;
    }
  }

  /** No event in the log drops the Device's request history. */
  predicate Undropped(log: seq<Event>, device: string) {
    forall k | 0 <= k < |log| && log[k].BucketsDropped? :: device !in log[k].devices
  }

  lemma {:induction false} DeviceHistorySplits(log: seq<Event>, n: nat, device: string)
    requires n <= |log| && Undropped(log[n..], device)
    ensures DeviceHistory(log, device) == DeviceHistory(log[..n], device) + DeviceHistory(log[n..], device)
  {
    if n == |log| {
      assert log[..n] == log && log[n..] == [];
    } else {
      assert Init(log)[..n] == log[..n] && Init(log)[n..] == Init(log[n..]);
      assert forall k | 0 <= k < |log[n..]| :: log[n..][k] == log[n + k];
      assert Last(log[n..]) == Last(log);
      DeviceHistorySplits(Init(log), n, device);
    }
  }

  lemma {:induction false} RegisteredStays(log: seq<Event>, n: nat, device: string)
    requires n <= |log| && StatusIn(log[..n], device) != ""
    ensures StatusIn(log, device) != ""
  {
    if n == |log| {
      assert log[..n] == log;
    } else {
      assert Init(log)[..n] == log[..n];
      RegisteredStays(Init(log), n, device);
    }
  }

  /** The history of a registered Device is never dropped. */
  lemma RegisteredIsNeverDropped(log: seq<Event>, n: nat, device: string)
    requires Lawful(log) && n <= |log| && StatusIn(log[..n], device) != ""
    ensures Undropped(log[n..], device)
  {
    hide Lawful, StatusIn;
    forall k | 0 <= k < |log[n..]| && log[n..][k].BucketsDropped?
      ensures device !in log[n..][k].devices
    {
      LawfulAt(log, n + k);
      assert log[..n + k][..n] == log[..n];
      RegisteredStays(log[..n + k], n, device);
    }
  }

  /** Once a Device is registered, a request ID of its is only accepted again after at
      least 1024 others. */
  lemma DeviceReplayDistance(log: seq<Event>, i: nat, j: nat)
    requires Lawful(log) && i < j < |log| && log[i].DeviceAccepted? && log[j] == log[i]
    requires StatusIn(log[..i], log[i].device) != "" || Undropped(log[i + 1..j], log[i].device)
    ensures |Elems(DeviceHistory(log[i + 1..j], log[i].device)) - {log[i].id}| >= 1024
  {
    hide Lawful, NeverInWindow, Elems, StatusIn, Undropped;
    var device, id := log[i].device, log[i].id;
    if StatusIn(log[..i], device) != "" {
      StillUndropped(log, i, j, device);
    }
    Around(log, i, j);
    LawfulPrefix(log, j + 1);
    DeviceIDsNeverInWindow(log[..j + 1], device);
    DeviceHistorySplits(log[..j], i + 1, device);
    var before, between := DeviceHistory(log[..i + 1], device), DeviceHistory(log[i + 1..j], device);
    assert DeviceHistory(log[..j + 1], device) == before + between + [id];
    RepeatedAfterMany(before, between, id, MAX_DEVICE_REPLAY_IDS);
  }

  lemma StillUndropped(log: seq<Event>, i: nat, j: nat, device: string)
    requires Lawful(log) && i < j < |log| && StatusIn(log[..i], device) != ""
    ensures Undropped(log[i + 1..j], device)
  {
    hide Lawful, StatusIn;
    RegisteredIsNeverDropped(log, i, device);
    var later, between := log[i..], log[i + 1..j];
    forall k | 0 <= k < |between| && between[k].BucketsDropped?
      ensures device !in between[k].devices
    {
      assert between[k] == later[k + 1];
    }
  }

  // ---- wrong codes ------------------------------------------------------------------------------

  /** The latest clock reading the rate limit took. */
  function LastReading(log: seq<Event>): int {
    if log == [] then 0
    else match Last(log)
      case WindowOpened(at) => at
      case WrongCode(at) => at
      case _ => LastReading(Init(log))
  }

  predicate ClockForward(log: seq<Event>) {
    log == [] || (ClockForward(Init(log)) && (Last(log).WindowOpened? || Last(log).WrongCode? ==> LastReading(Init(log)) <= Last(log).at))
  }

  predicate Within(from: int, at: int) {
    from <= at < from + MINUTE
  }

  /** How many wrong codes were answered in the minute that starts at `from`. */
  function WrongCodesWithin(log: seq<Event>, from: int): nat {
    if log == [] then 0
    else WrongCodesWithin(Init(log), from) + if Last(log).WrongCode? && Within(from, Last(log).at) then 1 else 0
  }

  /** Those of them that fall in the current counting window. */
  function CurrentWithin(log: seq<Event>, from: int): nat {
    if log == [] then 0
    else match Last(log)
      case WindowOpened(_) => 0
      case WrongCode(at) => CurrentWithin(Init(log), from) + if Within(from, at) then 1 else 0
      case _ => CurrentWithin(Init(log), from)
  }

  /** What the counters say about one minute, whatever has happened so far. */
  lemma {:induction false} RateInvariant(log: seq<Event>, from: int)
    requires Lawful(log) && ClockForward(log)
    ensures 0 <= LastWindow(log) <= LastReading(log)
    ensures CurrentWithin(log, from) <= AttemptsSince(log) <= MAX_CODE_ATTEMPTS
    ensures CurrentWithin(log, from) <= WrongCodesWithin(log, from) <= 2 * MAX_CODE_ATTEMPTS
    ensures WrongCodesWithin(log, from) > 0 ==> 0 < LastWindow(log) && from < LastWindow(log) + MINUTE
    ensures LastWindow(log) <= from ==> WrongCodesWithin(log, from) == CurrentWithin(log, from)
    ensures LastWindow(log) < from + MINUTE ==> WrongCodesWithin(log, from) - CurrentWithin(log, from) <= MAX_CODE_ATTEMPTS
  {
    if log != [] {
      RateInvariant(Init(log), from);
      if Last(log).WindowOpened? || Last(log).WrongCode? {
        assert May(Init(log), Last(log));
      }
    }
  }

  /** With a clock that never runs backwards, no minute sees more than 20 of them. */
  lemma AtMostTwentyWrongCodes(log: seq<Event>, from: int)
    requires Lawful(log) && ClockForward(log)
    ensures WrongCodesWithin(log, from) <= 20
  {
    RateInvariant(log, from);
  }
}
