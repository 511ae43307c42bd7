/** Which leases the Broker is asked to close after it opened them. The first lock region
    inserts a lease before the Broker opens it, so another call may remove and close it
    in between. */
module RouteLeaseClosing {
  import opened Common
  import opened RouteLease

  /** The one call that issues the lease, wherever it stands. */
  predicate Issues(call: Call, id: string) {
    (call.Issuing? || call.OpenFailed? || call.Abandoned?) && call.lease == id
  }

  predicate Issued(s: System, id: string) {
    exists call | call in s.calls :: Issues(s.calls[call], id)
  }

  /** The Broker has opened the lease, or may still be asked to. */
  predicate Openable(s: System, id: string) {
    Opened(id) in s.log || exists call | call in s.calls :: s.calls[call].Issuing? && s.calls[call].lease == id
  }

  predicate Once(log: seq<Event>, e: Event) {
    forall i, j | 0 <= i < j < |log| :: !(log[i] == e && log[j] == e)
  }

  predicate OneIssuer(s: System, id: string) {
    && (forall a, b | a in s.calls && b in s.calls && Issues(s.calls[a], id) && Issues(s.calls[b], id) :: a == b)
    && (Opened(id) in s.log ==> !Issued(s, id))
  }

  predicate OneCloser(s: System, id: string) {
    && (forall a, b | a in s.calls && b in s.calls && id in Owes(s.calls[a]) && id in Owes(s.calls[b]) :: a == b)
    && (Owed(s.calls, id) ==> Closed(id) !in s.log)
    && Once(s.log, Closed(id))
  }

  /** How far the calls have got with one lease. */
  predicate Tracked(s: System, id: string) {
    && (id in s.table.active ==> id in s.issued)
    && (id !in s.issued || id in s.table.active ==> Closed(id) !in s.log && !Owed(s.calls, id))
    && (id !in s.issued ==> Opened(id) !in s.log && !Issued(s, id))
    && OneIssuer(s, id)
    && (Openable(s, id) ==> OneCloser(s, id))
  }

  /** A step that hands nothing over and logs nothing about the lease. */
  lemma OtherLease(s: System, next: System, id: string)
    requires Tracked(s, id)
    requires (id in s.issued <==> id in next.issued) && (id in next.table.active ==> id in s.table.active)
    requires Closed(id) in next.log <==> Closed(id) in s.log
    requires Opened(id) in next.log <==> Opened(id) in s.log
    requires Once(s.log, Closed(id)) ==> Once(next.log, Closed(id))
    requires forall call | call in next.calls && Issues(next.calls[call], id) ::
               call in s.calls && Issues(s.calls[call], id) && (next.calls[call].Issuing? ==> s.calls[call].Issuing?)
    requires forall call | call in next.calls && id in Owes(next.calls[call]) :: call in s.calls && id in Owes(s.calls[call])
    ensures Tracked(next, id)
  {
  }

  lemma LogsOther(log: seq<Event>, added: seq<Event>, id: string)
    requires Closed(id) !in added && Opened(id) !in added
    ensures Closed(id) in log + added <==> Closed(id) in log
    ensures Opened(id) in log + added <==> Opened(id) in log
    ensures Once(log, Closed(id)) ==> Once(log + added, Closed(id))
  {
    var longer := log + added;
    forall j | |log| <= j < |longer|
      ensures longer[j] in added
    {
      assert longer[j] == added[j - |log|];
    }
  }

  lemma LogsClose(log: seq<Event>, id: string)
    requires Closed(id) !in log
    ensures Once(log + [Closed(id)], Closed(id)) && (Opened(id) in log + [Closed(id)] <==> Opened(id) in log)
  {
  }

  lemma StartIssueTracks(s: System, call: nat, request: IssueRequest, lease: string, now: int, ttl: int, id: string)
    requires Tracked(s, id)
    ensures Tracked(StartIssueStep(s, call, request, lease, now, ttl), id)
  {
    hide Admit, Remember;
    var next := StartIssueStep(s, call, request, lease, now, ttl);
    if next.log != s.log {
      var expired := Expired(s.table.active, now);
      assert next.log == s.log + [Removed(expired), Leased(lease)];
      LogsOther(s.log, [Removed(expired), Leased(lease)], id);
      assert next.calls[call] == Issuing(lease, request.target, expired) && call !in s.calls;
      assert forall other | other in s.calls :: other in next.calls && next.calls[other] == s.calls[other];
      if id == lease {
        NewLeaseTracked(s, next, call, id);
      } else if id in expired {
        ExpiredLeaseTracked(s, next, call, id);
      } else {
        OtherLease(s, next, id);
      }
    } else if next != s {
      OtherLease(s, next, id);
    }
  }

  lemma NewLeaseTracked(s: System, next: System, call: nat, id: string)
    requires Tracked(s, id) && id !in s.issued && id in next.issued && call !in s.calls && call in next.calls
    requires next.calls == s.calls[call := next.calls[call]] && Issues(next.calls[call], id) && id !in Owes(next.calls[call])
    requires Closed(id) in next.log <==> Closed(id) in s.log
    requires Opened(id) in next.log <==> Opened(id) in s.log
    ensures Tracked(next, id)
  {
    assert forall other | other in next.calls && other != call :: other in s.calls && next.calls[other] == s.calls[other];
    assert forall other | other in s.calls :: !Issues(s.calls[other], id) && id !in Owes(s.calls[other]);
  }

  /** A lease that just left the table is handed to one call, and nobody had it before. */
  lemma ExpiredLeaseTracked(s: System, next: System, call: nat, id: string)
    requires Tracked(s, id) && id in s.table.active && id !in next.table.active && next.issued >= s.issued
    requires call in next.calls && id in Owes(next.calls[call]) && !Issues(next.calls[call], id)
    requires forall other | other in next.calls && other != call :: other in s.calls && next.calls[other] == s.calls[other]
    requires Closed(id) in next.log <==> Closed(id) in s.log
    requires Opened(id) in next.log <==> Opened(id) in s.log
    ensures Tracked(next, id)
  {
    assert forall other | other in s.calls :: id !in Owes(s.calls[other]);
  }

  lemma CloseExpiredTracks(s: System, call: nat, lease: string, id: string)
    requires Tracked(s, id)
    ensures Tracked(Apply(s, CloseExpired(call, lease)), id)
  {
    var next := Apply(s, CloseExpired(call, lease));
    if next != s {
      assert id in Owes(s.calls[call]) ==> Owed(s.calls, id);
      if id == lease {
        CloseTracked(s, next, call, id);
      } else {
        LogsOther(s.log, [Closed(lease)], id);
        OtherLease(s, next, id);
      }
    }
  }

  /** The call that owes the Close of a lease has made it. */
  lemma CloseTracked(s: System, next: System, call: nat, id: string)
    requires Tracked(s, id) && call in s.calls && id in Owes(s.calls[call])
    requires next.log == s.log + [Closed(id)] && next.table == s.table && next.issued == s.issued
    requires next.calls - {call} == s.calls - {call}
    requires call in next.calls ==> id !in Owes(next.calls[call])
                                    && (Issues(next.calls[call], id) ==> Issues(s.calls[call], id))
                                    && (next.calls[call].Issuing? ==> s.calls[call].Issuing? && next.calls[call].lease == s.calls[call].lease)
    ensures Tracked(next, id)
  {
    assert Owed(s.calls, id);
    assert Opened(id) in next.log <==> Opened(id) in s.log;
    forall other | other in next.calls && other != call
      ensures other in s.calls && next.calls[other] == s.calls[other]
    {
      assert other in next.calls - {call} && (next.calls - {call})[other] == (s.calls - {call})[other];
    }
    if Openable(next, id) {
      assert Openable(s, id);
      LogsClose(s.log, id);
    }
  }

  lemma OpenTracks(s: System, call: nat, succeeds: bool, id: string)
    requires Tracked(s, id)
    ensures Tracked(Apply(s, Open(call, succeeds)), id)
  {
    var next := Apply(s, Open(call, succeeds));
    if next != s {
      var lease := s.calls[call].lease;
      assert forall other | other in next.calls && other != call :: other in s.calls && next.calls[other] == s.calls[other];
      if id != lease {
        LogsOther(s.log, if succeeds then [Opened(lease)] else [], id);
        assert succeeds || next.log == s.log + [];
        OtherLease(s, next, id);
      } else {
        assert Issues(s.calls[call], id) && Issued(s, id) && Openable(s, id);
        assert Closed(id) in next.log <==> Closed(id) in s.log;
        assert Owed(next.calls, id) ==> Owed(s.calls, id);
      }
    }
  }

  lemma DropLogs(s: System, lease: string, id: string)
    ensures Closed(id) in Drop(s, lease).log <==> Closed(id) in s.log
    ensures Opened(id) in Drop(s, lease).log <==> Opened(id) in s.log
    ensures Once(s.log, Closed(id)) ==> Once(Drop(s, lease).log, Closed(id))
  {
    if lease in s.table.active {
      LogsOther(s.log, [Removed({lease})], id);
    }
  }

  lemma ForgetTracks(s: System, call: nat, id: string)
    requires Tracked(s, id)
    ensures Tracked(Apply(s, Forget(call)), id)
  {
    var next := Apply(s, Forget(call));
    if next != s {
      var lease := s.calls[call].lease;
      DropLogs(s, lease, id);
      assert forall other | other in next.calls && other != call :: other in s.calls && next.calls[other] == s.calls[other];
      if id != lease {
        OtherLease(s, next, id);
      } else {
        assert Issues(s.calls[call], id) && Issued(s, id);
        assert !Openable(next, id);
      }
    }
  }

  lemma ReleaseTracks(s: System, call: nat, release: ReleaseRequest, id: string)
    requires Tracked(s, id)
    ensures Tracked(Apply(s, StartRelease(call, release)), id)
  {
    var next := Apply(s, StartRelease(call, release));
    if next != s {
      OtherLease(s, next, id);
    }
  }

  lemma RemoveTracks(s: System, call: nat, id: string)
    requires Tracked(s, id)
    ensures Tracked(Apply(s, Remove(call)), id)
  {
    var next := Apply(s, Remove(call));
    if next != s {
      var lease := s.calls[call].lease;
      DropLogs(s, lease, id);
      assert forall other | other in next.calls && other != call :: other in s.calls && next.calls[other] == s.calls[other];
      if id == lease && call in next.calls {
        ExpiredLeaseTracked(s, next, call, id);
      } else {
        OtherLease(s, next, id);
      }
    }
  }

  lemma CloseTracks(s: System, call: nat, id: string)
    requires Tracked(s, id)
    ensures Tracked(Apply(s, Close(call)), id)
  {
    var next := Apply(s, Close(call));
    if next != s {
      var lease := s.calls[call].lease;
      if id == lease {
        CloseTracked(s, next, call, id);
      } else {
        LogsOther(s.log, [Closed(lease)], id);
        OtherLease(s, next, id);
      }
    }
  }

  lemma StepTracks(s: System, step: Step, id: string)
    requires Tracked(s, id)
    ensures Tracked(Apply(s, step), id)
  {
    hide Tracked;
    match step
    case StartIssue(call, request, lease, now, ttl) => StartIssueTracks(s, call, request, lease, now, ttl, id);
    case CloseExpired(call, lease) => CloseExpiredTracks(s, call, lease, id);
    case Open(call, succeeds) => OpenTracks(s, call, succeeds, id);
    case Forget(call) => ForgetTracks(s, call, id);
    case StartRelease(call, release) => ReleaseTracks(s, call, release, id);
    case Remove(call) => RemoveTracks(s, call, id);
    case Close(call) => CloseTracks(s, call, id);
  }

  lemma {:induction false} RunsTrack(s: System, steps: seq<Step>, id: string)
    requires Tracked(s, id)
    ensures Tracked(Run(s, steps), id)
    decreases |steps|
  {
    hide Tracked, Apply;
    if steps != [] {
      StepTracks(s, steps[0], id);
      RunsTrack(Apply(s, steps[0]), steps[1..], id);
    }
  }

  lemma EmptyTracks(id: string)
    ensures Tracked(EMPTY, id)
  {
  }

  /** A lease that was opened and is no longer active, once no call is in progress: it is
      closed after its Open if and only if no call has closed it before, which takes that
      another call removed it between its insertion and its Open. If it was closed before,
      the Broker keeps what it opened until the lease expires. */
  lemma ClosedAfterOpenExactly(steps: seq<Step>, id: string, at: nat)
    requires var s := Run(EMPTY, steps);
             s.calls == map[] && at < |s.log| && s.log[at] == Opened(id) && id !in s.table.active
    ensures var s := Run(EMPTY, steps);
            ClosedAfter(s.log, at, id) <==> Closed(id) !in s.log[..at]
    ensures var s := Run(EMPTY, steps);
            Closed(id) in s.log[..at] ==> exists i | 0 <= i < at :: s.log[i].Removed? && id in s.log[i].ids
  {
    hide Run, Tables, OneIssuer;
    var s := Run(EMPTY, steps);
    EmptyTracks(id);
    RunsTrack(EMPTY, steps, id);
    assert Opened(id) in s.log;
    assert Openable(s, id) && id in s.issued;
    NothingLeaksAtRest(steps, id);
    var i, j :| 0 <= i < j < |s.log| && s.log[i].Removed? && id in s.log[i].ids && s.log[j] == Closed(id);
    OnlyPlace(s.log, id, j, at);
  }

  lemma OnlyPlace(log: seq<Event>, id: string, j: nat, at: nat)
    requires Once(log, Closed(id)) && j < |log| && log[j] == Closed(id) && at < |log| && j != at
    ensures Closed(id) in log[..at] <==> j < at
    ensures ClosedAfter(log, at, id) <==> j > at
  {
    if j < at {
      assert log[..at][j] == Closed(id);
    }
  }

  // ---- both cases happen ----------------------------------------------------------------------

  const KEY := "key"
  const REQUEST_A := IssueRequest(true, "device", "target", "request-a", Some(Authorization(KEY, 1000)), Some(KEY))
  const REQUEST_B := REQUEST_A.(requestID := "request-b")

  /** Call 1 inserts lease a at time 1 for one nanosecond; call 2, at time 2, finds it expired. */
  function BothStarted(): System {
    Apply(FirstStarted(), StartIssue(2, REQUEST_B, "b", 2, 1))
  }

  const STARTS := [StartIssue(1, REQUEST_A, "a", 1, 1), StartIssue(2, REQUEST_B, "b", 2, 1)]

  lemma AfterStarts(rest: seq<Step>)
    ensures Run(EMPTY, STARTS + rest) == Run(BothStarted(), rest)
  {
    hide Apply;
    var steps := STARTS + rest;
    assert steps[1..][1..] == rest && steps[1..][0] == STARTS[1];
  }

  function FirstStarted(): System {
    Apply(EMPTY, StartIssue(1, REQUEST_A, "a", 1, 1))
  }

  lemma FirstStartedIs()
    ensures FirstStarted() == System(Table(map["a" := Lease("device", "target", 2, KEY)], {("device", "request-a")}, [("device", "request-a")]),
                                     map[1 := Issuing("a", "target", {})], [Removed({}), Leased("a")], {"a"}, [], [("device", "request-a")])
  {
    assert Expired(EMPTY.table.active, 1) == {};
    assert EMPTY.table.active - {} == map[];
  }

  lemma BothStartedIs()
    ensures BothStarted().calls == map[1 := Issuing("a", "target", {}), 2 := Issuing("b", "target", {"a"})]
    ensures BothStarted().log == [Removed({}), Leased("a"), Removed({"a"}), Leased("b")]
    ensures BothStarted().table.active.Keys == {"b"}
  {
    hide FirstStarted;
    FirstStartedIs();
    var active := FirstStarted().table.active;
    assert Expired(active, 2) == {"a"};
    assert active - {"a"} == map[];
    assert Admit(REQUEST_B, 2, 1) == Some(3);
    assert IssueVerdictOf(FirstStarted().table, ("device", "request-b"), 2) == Inserted;
  }

  lemma Closes(s: System, call: nat, id: string)
    requires call in s.calls && s.calls[call].Issuing? && s.calls[call].toClose == {id}
    ensures Apply(s, CloseExpired(call, id)) == s.(calls := s.calls[call := s.calls[call].(toClose := {})], log := s.log + [Closed(id)])
  {
    assert {id} - {id} == {};
  }

  lemma Opens(s: System, call: nat)
    requires call in s.calls && s.calls[call].Issuing? && s.calls[call].toClose == {}
    ensures Apply(s, Open(call, true)) == s.(calls := s.calls - {call}, log := s.log + [Opened(s.calls[call].lease)])
  {
  }

  /** Call 2 closes lease a before call 1 opens it: nobody closes it afterwards. */
  lemma ClosedTooEarlyExample()
    ensures var s := Run(EMPTY, STARTS + [CloseExpired(2, "a"), Open(2, true), Open(1, true)]);
            && s.calls == map[] && "a" !in s.table.active
            && s.log == [Removed({}), Leased("a"), Removed({"a"}), Leased("b"), Closed("a"), Opened("b"), Opened("a")]
            && !ClosedAfter(s.log, 6, "a")
  {
    hide Apply, Run, BothStarted;
    BothStartedIs();
    var s := BothStarted();
    Closes(s, 2, "a");
    var t := Apply(s, CloseExpired(2, "a"));
    Opens(t, 2);
    var u := Apply(t, Open(2, true));
    Opens(u, 1);
    AfterStarts([CloseExpired(2, "a"), Open(2, true), Open(1, true)]);
    RunThree(s, CloseExpired(2, "a"), Open(2, true), Open(1, true));
    assert u.calls - {1} == map[];
  }

  /** Lease a is removed before call 1 opens it here too, but closed only afterwards. */
  lemma ClosedInTimeExample()
    ensures var s := Run(EMPTY, STARTS + [Open(1, true), CloseExpired(2, "a"), Open(2, true)]);
            && s.calls == map[] && "a" !in s.table.active
            && s.log == [Removed({}), Leased("a"), Removed({"a"}), Leased("b"), Opened("a"), Closed("a"), Opened("b")]
            && ClosedAfter(s.log, 4, "a")
  {
    hide Apply, Run, BothStarted;
    BothStartedIs();
    var s := BothStarted();
    Opens(s, 1);
    var t := Apply(s, Open(1, true));
    Closes(t, 2, "a");
    var u := Apply(t, CloseExpired(2, "a"));
    Opens(u, 2);
    var v := Apply(u, Open(2, true));
    AfterStarts([Open(1, true), CloseExpired(2, "a"), Open(2, true)]);
    RunThree(s, Open(1, true), CloseExpired(2, "a"), Open(2, true));
    assert u.calls - {2} == map[];
    assert v.log[5] == Closed("a");
  }

  lemma RunThree(s: System, a: Step, b: Step, c: Step)
    ensures Run(s, [a, b, c]) == Apply(Apply(Apply(s, a), b), c)
  {
    hide Apply;
    assert [a, b, c][1..] == [b, c] && [b, c][1..] == [c] && [c][1..] == [];
    assert Run(Apply(Apply(s, a), b), [c]) == Run(Apply(Apply(Apply(s, a), b), c), []);
  }
}
