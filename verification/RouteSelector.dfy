/** Choosing one route among independent providers, and closing all the others.

    An acquisition is known by a handle; `closed` lists the handles on which Close was
    called. What a provider answers is arbitrary. Durations are nanoseconds. */
module RouteSelector {
  import opened Common
  import opened Sorting

  const MILLISECOND := 1_000_000
  const HOUR := 3600 * 1000 * MILLISECOND
  const MARGIN := 20 * MILLISECOND

  type Handle = int

  datatype Quality = Quality(samples: int, successes: int, median: int)

  /** What asking one provider leads to: `valid` says whether the acquired candidate is
      well formed and of the entry's adapter; `reported` is a measured quality. */
  datatype Attempt = Attempt(adapter: string, configured: bool, failed: bool, acquired: Option<Handle>, valid: bool,
                             reported: Option<Quality>, elapsed: int)

  datatype Status = Unavailable | Available | SelectedRoute
  datatype Code = NotConfigured | AcquireFailed | InvalidCandidate | Ready | NotSelected
  datatype Diagnostic = Diagnostic(adapter: string, status: Status, code: Code)
  datatype Result = Result(adapter: string, acquisition: Option<Handle>, diagnostic: Diagnostic, quality: Quality)

  // ---- one probe ------------------------------------------------------------------

  /** The result one provider contributes; unusable acquisitions are closed on the way. */
  function Probe(a: Attempt): Result {
    if !a.configured then
      Result(a.adapter, None, Diagnostic(a.adapter, Unavailable, NotConfigured), Quality(0, 0, 0))
    else if a.failed || a.acquired.None? then
      Result(a.adapter, None, Diagnostic(a.adapter, Unavailable, AcquireFailed), Quality(1, 0, a.elapsed))
    else if !a.valid then
      Result(a.adapter, None, Diagnostic(a.adapter, Unavailable, InvalidCandidate), Quality(1, 0, a.elapsed))
    else
      Result(a.adapter, a.acquired, Diagnostic(a.adapter, Available, Ready),
             if a.reported.Some? then a.reported.value else Quality(1, 1, a.elapsed))
  }

  /** The provider is configured and answered with a well-formed candidate of its own. */
  predicate Works(a: Attempt) {
    a.configured && !a.failed && a.acquired.Some? && a.valid
  }

  /** How an answer is judged: only a working provider is available, with its measured
      quality or else the time its answer took. */
  lemma ProbeMeans(a: Attempt)
    ensures Probe(a).adapter == Probe(a).diagnostic.adapter == a.adapter
    ensures Works(a) ==> Probe(a).acquisition == a.acquired && Probe(a).diagnostic == Diagnostic(a.adapter, Available, Ready)
    ensures Works(a) && a.reported.Some? ==> Probe(a).quality == a.reported.value
    ensures Works(a) && a.reported.None? ==> Probe(a).quality == Quality(1, 1, a.elapsed)
    ensures !Works(a) ==> Probe(a).acquisition.None? && Probe(a).quality.successes == 0 && Probe(a).diagnostic.status == Unavailable
    ensures !Works(a) ==> Probe(a).diagnostic.code == if !a.configured then NotConfigured
                                                      else if a.failed || a.acquired.None? then AcquireFailed else InvalidCandidate
    ensures !Works(a) && a.configured ==> Probe(a).quality == Quality(1, 0, a.elapsed)
  {
  }

  /** The handle a provider handed out, if any. */
  function HandedOut(a: Attempt): Option<Handle> {
    if a.configured then a.acquired else None
  }

  method RunProbe(a: Attempt) returns (result: Result, closed: seq<Handle>)
    ensures result == Probe(a)
    ensures closed == if HandedOut(a).Some? && result.acquisition.None? then [a.acquired.value] else []
  {
    closed := [];
    if !a.configured {
      return Result(a.adapter, None, Diagnostic(a.adapter, Unavailable, NotConfigured), Quality(0, 0, 0)), closed;
    }
    result := Result(a.adapter, a.acquired, Diagnostic(a.adapter, Available, Ready), Quality(1, 1, a.elapsed));
    if a.failed || a.acquired.None? {
      if a.acquired.Some? {
        closed := [a.acquired.value];
      }
      result := result.(acquisition := None, quality := Quality(1, 0, a.elapsed),
                        diagnostic := Diagnostic(a.adapter, Unavailable, AcquireFailed));
      return;
    }
    if !a.valid {
      closed := [a.acquired.value];
      result := result.(acquisition := None, quality := result.quality.(successes := 0),
                        diagnostic := Diagnostic(a.adapter, Unavailable, InvalidCandidate));
      return;
    }
    if a.reported.Some? {
      result := result.(quality := a.reported.value);
    }
  }

  // ---- health ---------------------------------------------------------------------

  datatype Sample = Sample(success: bool, latency: int)
  type Samples = map<(string, string), seq<Sample>>

  function SamplesOf(samples: Samples, key: (string, string)): seq<Sample> {
    if key in samples then samples[key] else []
  }

  function AfterRecord(samples: Samples, limit: nat, target: string, adapter: string, sample: Sample): Samples {
    if target == "" || adapter == "" then samples
    else samples[(target, adapter) := LastN(SamplesOf(samples, (target, adapter)) + [sample], limit)]
  }

  function Failures(values: seq<Sample>): nat {
    if values == [] then 0 else Failures(values[..|values| - 1]) + if values[|values| - 1].success then 0 else 1
  }

  function PenaltyOf(values: seq<Sample>): int {
    if values == [] then 0 else Failures(values) * (400 * MILLISECOND) / |values|
  }

  class HealthTracker {
    const limit: nat
    var samples: Samples

    constructor (requested: int)
      ensures limit == (if requested <= 0 then 12 else requested) && samples == map[]
    {
      limit := if requested <= 0 then 12 else requested;
      samples := map[];
    }

    method Record(target: string, adapter: string, success: bool, latency: int)
      modifies this
      ensures samples == AfterRecord(old(samples), limit, target, adapter, Sample(success, latency))
    {
      if target == "" || adapter == "" {
        return;
      }
      var values := SamplesOf(samples, (target, adapter)) + [Sample(success, latency)];
      if |values| > limit {
        values := values[|values| - limit..];
      }
      samples := samples[(target, adapter) := values];
    }

    method Penalty(target: string, adapter: string) returns (penalty: int)
      ensures penalty == PenaltyOf(SamplesOf(samples, (target, adapter)))
    {
      var values := SamplesOf(samples, (target, adapter));
      if |values| == 0 {
        return 0;
      }
      var failures := 0;
      for i := 0 to |values|
        invariant failures == Failures(values[..i])
      {
        assert values[..i + 1][..i] == values[..i];
        if !values[i].success {
          failures := failures + 1;
        }
      }
      assert values[..|values|] == values;
      penalty := failures * (400 * MILLISECOND) / |values|;
    }
  }

  /** A penalty is at most 400 ms, reached exactly when every remembered use failed. */
  lemma {:induction false} PenaltyIsBounded(values: seq<Sample>)
    ensures 0 <= PenaltyOf(values) <= 400 * MILLISECOND
    ensures Failures(values) <= |values|
  {
    FailuresBounded(values);
    if values != [] {
      assert Failures(values) * (400 * MILLISECOND) <= |values| * (400 * MILLISECOND);
      DivideBounded(Failures(values) * (400 * MILLISECOND), |values|, 400 * MILLISECOND);
    }
  }

  /** The failed uses among the remembered ones. */
  function FailedUses(values: seq<Sample>): set<int> {
    set i | 0 <= i < |values| && !values[i].success
  }

  lemma {:induction false} FailuresAreCounted(values: seq<Sample>)
    ensures Failures(values) == |FailedUses(values)|
  {
    if values != [] {
      var init, last := values[..|values| - 1], |values| - 1;
      FailuresAreCounted(init);
      assert FailedUses(values) == FailedUses(init) + if values[last].success then {} else {last};
    }
  }

  /** The penalty is the share of failed uses of 400 ms, rounded down. */
  lemma PenaltyIsShare(values: seq<Sample>)
    ensures values == [] ==> PenaltyOf(values) == 0
    ensures values != [] ==>
              var total := |FailedUses(values)| * 400_000_000;
              PenaltyOf(values) * |values| <= total < (PenaltyOf(values) + 1) * |values|
  {
    if values != [] {
      FailuresAreCounted(values);
      Quotient(Failures(values) * (400 * MILLISECOND), |values|);
    }
  }

  lemma Quotient(total: nat, n: nat)
    requires n > 0
    ensures total / n * n <= total < (total / n + 1) * n
  {
    assert total == total / n * n + total % n;
  }

  lemma {:induction false} FailuresBounded(values: seq<Sample>)
    ensures Failures(values) <= |values|
  {
    if values != [] {
      FailuresBounded(values[..|values| - 1]);
    }
  }

  lemma DivideBounded(total: nat, n: nat, each: nat)
    requires n > 0 && total <= n * each
    ensures total / n <= each
  {
    var q := total / n;
    assert n * q <= total;
    if q > each {
      assert n * q >= n * (each + 1) by { Monotone(n, each + 1, q); }
      assert false;
    }
  }

  lemma Monotone(n: nat, a: nat, b: nat)
    requires a <= b
    ensures n * a <= n * b
  {
  }

  // ---- scores ---------------------------------------------------------------------

  function QualityScore(q: Quality): int {
    if q.samples <= 0 then HOUR
    else q.median + (if q.samples > q.successes then q.samples - q.successes else 0) * (250 * MILLISECOND)
  }

  /** What a quality costs: its median, and 250 ms for each failed sample; an hour if
      nothing was measured. */
  predicate Costs(q: Quality, cost: int) {
    && (q.samples <= 0 ==> cost == 3_600_000_000_000)
    && (q.samples > 0 && q.successes >= q.samples ==> cost == q.median)
    && (q.samples > 0 && q.successes < q.samples ==> cost - q.median == (q.samples - q.successes) * 250_000_000)
  }

  lemma ScoreIsCost(q: Quality)
    ensures Costs(q, QualityScore(q))
  {
  }

  predicate Stable(q: Quality) {
    q.successes == q.samples && q.successes > 0
  }

  /** The tracker after the first `n` results, in policy order, were recorded. */
  function Recorded(samples: Samples, limit: nat, target: string, ordered: seq<Result>, n: nat): Samples
    requires n <= |ordered|
  {
    if n == 0 then samples
    else AfterRecord(Recorded(samples, limit, target, ordered, n - 1), limit, target, ordered[n - 1].adapter,
                     Sample(Stable(ordered[n - 1].quality), ordered[n - 1].quality.median))
  }

  /** The health a selector consults: none, or a tracker's limit and samples. */
  datatype Health = NoHealth | Tracked(limit: nat, samples: Samples)

  function ScoreAt(health: Health, target: string, ordered: seq<Result>, i: nat): Option<int>
    requires i < |ordered|
  {
    if ordered[i].acquisition.None? then None
    else match health
      case NoHealth => Some(QualityScore(ordered[i].quality))
      case Tracked(limit, samples) =>
        Some(QualityScore(ordered[i].quality)
             + PenaltyOf(SamplesOf(Recorded(samples, limit, target, ordered, i + 1), (target, ordered[i].adapter))))
  }

  function Scores(health: Health, target: string, ordered: seq<Result>): seq<Option<int>> {
    seq(|ordered|, i requires 0 <= i < |ordered| => ScoreAt(health, target, ordered, i))
  }

  datatype Pick = NoPick | Pick(index: nat, score: int)

  /** Policy order with hysteresis: a later provider must be more than 20 ms better. */
  function Choose(scores: seq<Option<int>>): Pick {
    if scores == [] then NoPick
    else
      var last, earlier := |scores| - 1, Choose(scores[..|scores| - 1]);
      if scores[last].Some? && (earlier.NoPick? || scores[last].value + MARGIN < earlier.score) then
        Pick(last, scores[last].value)
      else earlier
  }

  /** The winner is strictly better than every earlier available provider and at most
      20 ms worse than any later one. */
  lemma {:induction false} WinnerBounds(scores: seq<Option<int>>)
    ensures Choose(scores).NoPick? <==> forall i | 0 <= i < |scores| :: scores[i].None?
    ensures var p := Choose(scores);
            p.Pick? ==>
              && p.index < |scores| && scores[p.index] == Some(p.score)
              && (forall i | 0 <= i < p.index && scores[i].Some? :: p.score < scores[i].value)
              && (forall i | p.index < i < |scores| && scores[i].Some? :: p.score <= scores[i].value + MARGIN)
  {
    if scores != [] {
      var init := scores[..|scores| - 1];
      WinnerBounds(init);
      assert forall i | 0 <= i < |init| :: init[i] == scores[i];
    }
  }

  /** A provider that was measured without a failure. */
  predicate Faultless(r: Result) {
    r.acquisition.Some? && r.quality.samples > 0 && r.quality.successes == r.quality.samples
  }

  /** Without a health tracker and without failures the fastest wins, up to 20 ms in favour of
      policy order: its median is strictly below that of every earlier provider and at most
      20 ms above that of any later one. */
  lemma FastestWins(target: string, ordered: seq<Result>)
    requires forall i | 0 <= i < |ordered| && ordered[i].acquisition.Some? :: Faultless(ordered[i])
    ensures var p := Choose(Scores(NoHealth, target, ordered));
            p.Pick? ==>
              && p.index < |ordered|
              && (forall i | 0 <= i < p.index && ordered[i].acquisition.Some? ::
                    ordered[p.index].quality.median < ordered[i].quality.median)
              && forall i | p.index < i < |ordered| && ordered[i].acquisition.Some? ::
                   ordered[p.index].quality.median <= ordered[i].quality.median + 20_000_000
  {
    hide Choose, QualityScore;
    var scores := Scores(NoHealth, target, ordered);
    WinnerBounds(scores);
    forall i | 0 <= i < |ordered| && ordered[i].acquisition.Some?
      ensures scores[i] == Some(ordered[i].quality.median)
    {
      ScoreIsCost(ordered[i].quality);
    }
    ChosenIsAvailable(NoHealth, target, ordered);
  }

  /** The same in terms of what the providers answered: of those that work and report no
      quality of their own, the one that answered fastest. */
  lemma FastestAnswerWins(attempts: seq<Attempt>, target: string)
    requires forall i | 0 <= i < |attempts| && Works(attempts[i]) :: attempts[i].reported.None?
    ensures var p := BestOf(attempts, target, NoHealth);
            if p.Pick? then
              && p.index < |attempts| && Works(attempts[p.index])
              && (forall i | 0 <= i < p.index && Works(attempts[i]) :: attempts[p.index].elapsed < attempts[i].elapsed)
              && (forall i | p.index < i < |attempts| && Works(attempts[i]) :: attempts[p.index].elapsed <= attempts[i].elapsed + 20_000_000)
            else forall i | 0 <= i < |attempts| :: !Works(attempts[i])
  {
    hide Choose, Scores, Probe, Works;
    var ordered := Ordered(attempts);
    AllWork(attempts);
    forall i | 0 <= i < |attempts|
      ensures Works(attempts[i]) ==> Faultless(ordered[i]) && ordered[i].quality.median == attempts[i].elapsed
    {
      ProbeMeans(attempts[i]);
    }
    FastestWins(target, ordered);
    ChosenIsAvailable(NoHealth, target, ordered);
  }

  /** What a score consists of: the cost of the quality, and the penalty of what is
      remembered of the adapter, this result included. */
  lemma ScoreMeans(health: Health, target: string, ordered: seq<Result>, i: nat)
    requires i < |ordered| && ordered[i].acquisition.Some?
    ensures ScoreAt(health, target, ordered, i).Some?
    ensures health.NoHealth? ==> Costs(ordered[i].quality, ScoreAt(health, target, ordered, i).value)
    ensures health.Tracked? ==>
              var values := SamplesOf(Recorded(health.samples, health.limit, target, ordered, i + 1), (target, ordered[i].adapter));
              Costs(ordered[i].quality, ScoreAt(health, target, ordered, i).value - PenaltyOf(values))
  {
    hide QualityScore, PenaltyOf;
    ScoreIsCost(ordered[i].quality);
  }

  /** One result remembered: the newest entry, before it the newest `limit - 1` of the rest;
      what is remembered of other targets and adapters stays. */
  predicate Remembers(before: seq<Sample>, after: seq<Sample>, limit: nat, q: Quality) {
    && after != [] && after[|after| - 1] == Sample(q.successes == q.samples && q.successes > 0, q.median)
    && |after| <= limit && (|before| < limit ==> after[..|after| - 1] == before)
    && (|before| >= limit ==> |after| == limit && after[..|after| - 1] == before[|before| - limit + 1..])
  }

  lemma RecordRemembers(samples: Samples, limit: nat, target: string, r: Result, key: (string, string))
    requires target != "" && r.adapter != "" && limit > 0
    ensures var after := SamplesOf(AfterRecord(samples, limit, target, r.adapter, Sample(Stable(r.quality), r.quality.median)), key);
            if key == (target, r.adapter) then Remembers(SamplesOf(samples, key), after, limit, r.quality)
            else after == SamplesOf(samples, key)
  {
    var all := SamplesOf(samples, key) + [Sample(Stable(r.quality), r.quality.median)];
    assert LastN(all, limit) == if |all| <= limit then all else all[|all| - limit..];
  }

  /** Each result is remembered once, as a success only if every sample of it succeeded. */
  lemma {:induction false} EachResultIsRemembered(samples: Samples, limit: nat, target: string, ordered: seq<Result>, n: nat, key: (string, string))
    requires n <= |ordered| && target != "" && limit > 0
    requires forall i, j | 0 <= i < j < |ordered| :: ordered[i].adapter != ordered[j].adapter
    requires forall i | 0 <= i < |ordered| :: ordered[i].adapter != ""
    ensures var after := SamplesOf(Recorded(samples, limit, target, ordered, n), key);
            && (forall i | 0 <= i < n && key == (target, ordered[i].adapter) ::
                  Remembers(SamplesOf(samples, key), after, limit, ordered[i].quality))
            && ((forall i | 0 <= i < n :: key != (target, ordered[i].adapter)) ==> after == SamplesOf(samples, key))
  {
    hide AfterRecord, SamplesOf, Remembers, Stable;
    if n > 0 {
      EachResultIsRemembered(samples, limit, target, ordered, n - 1, key);
      RecordRemembers(Recorded(samples, limit, target, ordered, n - 1), limit, target, ordered[n - 1], key);
    }
  }

  // ---- acquireBest ----------------------------------------------------------------

  function Ordered(attempts: seq<Attempt>): seq<Result> {
    seq(|attempts|, i requires 0 <= i < |attempts| => Probe(attempts[i]))
  }

  /** Providers hand out different acquisitions. */
  predicate DistinctHandles(attempts: seq<Attempt>) {
    forall i, j | 0 <= i < j < |attempts| && HandedOut(attempts[i]).Some? && HandedOut(attempts[j]).Some? ::
      attempts[i].acquired != attempts[j].acquired
  }

  /** Every provider answers exactly once, in any order. */
  predicate Arrival(order: seq<int>, n: nat) {
    NoDup(order) && (forall k | 0 <= k < |order| :: 0 <= order[k] < n) && forall i | 0 <= i < n :: i in order
  }

  /** `who` names, entry by entry, the providers whose handles were closed. */
  predicate ClosedFor(attempts: seq<Attempt>, closed: seq<Handle>, who: seq<int>) {
    && |who| == |closed| && NoDup(who)
    && forall k | 0 <= k < |who| :: 0 <= who[k] < |attempts| && HandedOut(attempts[who[k]]) == Some(closed[k])
  }

  /** Of the handles handed out exactly the returned one stays open; every other one is
      closed exactly once, and nothing else is closed. */
  ghost predicate AllButOneClosed(attempts: seq<Attempt>, closed: seq<Handle>, returned: Option<Handle>) {
    && (returned.Some? ==> exists i :: 0 <= i < |attempts| && HandedOut(attempts[i]) == returned)
    && exists who :: ClosedFor(attempts, closed, who) && Leaves(attempts, who, returned)
  }

  /** `who` is everybody who handed out something other than `returned`. */
  predicate Leaves(attempts: seq<Attempt>, who: seq<int>, returned: Option<Handle>) {
    forall i | 0 <= i < |attempts| && HandedOut(attempts[i]).Some? :: i in who <==> HandedOut(attempts[i]) != returned
  }

  /** What that means for one handle. */
  lemma EachHandleOnce(attempts: seq<Attempt>, closed: seq<Handle>, returned: Option<Handle>, h: Handle)
    requires DistinctHandles(attempts) && AllButOneClosed(attempts, closed, returned)
    ensures NoDup(closed)
    ensures h in closed <==> Some(h) != returned && exists i :: 0 <= i < |attempts| && HandedOut(attempts[i]) == Some(h)
  {
    hide HandedOut, ClosedFor, Leaves;
    var who := WhoClosed(attempts, closed, returned);
    ClosedDifferently(attempts, closed, who);
    if i :| 0 <= i < |attempts| && HandedOut(attempts[i]) == Some(h) && Some(h) != returned {
      OpenersAreClosed(attempts, closed, who, returned, i);
    }
    if h in closed {
      var k :| 0 <= k < |closed| && closed[k] == h;
      ClosedWereOpened(attempts, closed, who, returned, k);
    }
  }

  lemma WhoClosed(attempts: seq<Attempt>, closed: seq<Handle>, returned: Option<Handle>) returns (who: seq<int>)
    requires AllButOneClosed(attempts, closed, returned)
    ensures ClosedFor(attempts, closed, who) && Leaves(attempts, who, returned)
  {
    hide ClosedFor, Leaves;
    who :| ClosedFor(attempts, closed, who) && Leaves(attempts, who, returned);
  }

  lemma ClosedDifferently(attempts: seq<Attempt>, closed: seq<Handle>, who: seq<int>)
    requires DistinctHandles(attempts) && ClosedFor(attempts, closed, who)
    ensures NoDup(closed)
  {
    hide HandedOut, DistinctHandles;
    forall i, j | 0 <= i < j < |closed|
      ensures closed[i] != closed[j]
    {
      DifferentHandles(attempts, who[i], who[j]);
    }
  }

  lemma OpenersAreClosed(attempts: seq<Attempt>, closed: seq<Handle>, who: seq<int>, returned: Option<Handle>, i: int)
    requires ClosedFor(attempts, closed, who) && Leaves(attempts, who, returned)
    requires 0 <= i < |attempts| && HandedOut(attempts[i]).Some? && HandedOut(attempts[i]) != returned
    ensures HandedOut(attempts[i]).value in closed
  {
    hide HandedOut;
    assert i in who;
    var k :| 0 <= k < |who| && who[k] == i;
    assert closed[k] in closed;
  }

  lemma ClosedWereOpened(attempts: seq<Attempt>, closed: seq<Handle>, who: seq<int>, returned: Option<Handle>, k: int)
    requires ClosedFor(attempts, closed, who) && Leaves(attempts, who, returned) && 0 <= k < |closed|
    ensures Some(closed[k]) != returned && exists i :: 0 <= i < |attempts| && HandedOut(attempts[i]) == Some(closed[k])
  {
    hide HandedOut;
    assert HandedOut(attempts[who[k]]) == Some(closed[k]) && who[k] in who;
  }

  lemma DifferentHandles(attempts: seq<Attempt>, i: int, j: int)
    requires DistinctHandles(attempts) && 0 <= i < |attempts| && 0 <= j < |attempts| && i != j
    requires HandedOut(attempts[i]).Some? && HandedOut(attempts[j]).Some?
    ensures HandedOut(attempts[i]) != HandedOut(attempts[j])
  {
  }

  predicate SelfCloses(a: Attempt) {
    HandedOut(a).Some? && Probe(a).acquisition.None?
  }

  /** Receives the results in arrival order and files them in policy order. */
  method Gather(attempts: seq<Attempt>, order: seq<int>) returns (ordered: seq<Result>, closed: seq<Handle>, ghost who: seq<int>)
    requires Arrival(order, |attempts|)
    ensures ordered == Ordered(attempts)
    ensures ClosedFor(attempts, closed, who)
    ensures forall i | 0 <= i < |attempts| :: i in who <==> SelfCloses(attempts[i])
  {
    hide Probe, HandedOut;
    var slots := new Result[|attempts|](_ => Result("", None, Diagnostic("", Unavailable, NotConfigured), Quality(0, 0, 0)));
    closed, who := [], [];
    for k := 0 to |order|
      invariant forall j | 0 <= j < k :: slots[order[j]] == Probe(attempts[order[j]])
      invariant ClosedFor(attempts, closed, who)
      invariant forall i | 0 <= i < |attempts| :: i in who <==> i in order[..k] && SelfCloses(attempts[i])
    {
      var index := order[k];
      var result, now := RunProbe(attempts[index]);
      slots[index] := result;
      assert order[..k + 1] == order[..k] + [index];
      if SelfCloses(attempts[index]) {
        HandleOf(attempts[index]);
        who := who + [index];
      }
      closed := closed + now;
    }
    assert order[..|order|] == order;
    forall i | 0 <= i < |attempts|
      ensures slots[i] == Probe(attempts[i])
    {
      assert i in order;
      var j :| 0 <= j < |order| && order[j] == i;
    }
    ordered := slots[..];
  }

  lemma HandleOf(a: Attempt)
    ensures HandedOut(a).Some? ==> a.acquired == HandedOut(a)
    ensures Probe(a).acquisition.Some? ==> HandedOut(a) == Probe(a).acquisition
    ensures Probe(a).acquisition.None? ==> Probe(a).diagnostic.status == Unavailable
  {
  }

  /** The pick depends on what the providers answered and on past health only: the order
      in which the answers arrived does not occur in it. */
  function BestOf(attempts: seq<Attempt>, target: string, health: Health): Pick {
    Choose(Scores(health, target, Ordered(attempts)))
  }

  function HealthOf(tracker: HealthTracker?): Health
    reads tracker
  {
    if tracker == null then NoHealth else Tracked(tracker.limit, tracker.samples)
  }

  method AcquireBest(attempts: seq<Attempt>, order: seq<int>, cancelled: bool, target: string, tracker: HealthTracker?)
    returns (returned: Option<Handle>, diagnostics: seq<Diagnostic>, closed: seq<Handle>)
    requires Arrival(order, |attempts|) && DistinctHandles(attempts)
    modifies tracker
    ensures AllButOneClosed(attempts, closed, returned)
    ensures cancelled ==> returned.None? && HealthOf(tracker) == old(HealthOf(tracker))
    ensures !cancelled ==>
              match BestOf(attempts, target, old(HealthOf(tracker)))
              case NoPick => returned.None?
              case Pick(index, _) =>
                && index < |attempts| && returned == Probe(attempts[index]).acquisition && returned.Some?
                && |diagnostics| == |attempts|
                && forall i | 0 <= i < |attempts| :: diagnostics[i].status == SelectedRoute <==> i == index
    ensures returned.Some? <==> !cancelled && exists i | 0 <= i < |attempts| :: Works(attempts[i])
    ensures returned.Some? ==>
              && |diagnostics| == |attempts|
              && forall i | 0 <= i < |attempts| :: diagnostics[i] == Reported(attempts[i], returned)
    ensures returned.None? ==> diagnostics == []
    ensures !cancelled && tracker != null ==>
              tracker.samples == Recorded(old(tracker.samples), tracker.limit, target, Ordered(attempts), |attempts|)
  {
    hide Probe, Works, Reported, Recorded, Scores, Choose, AllButOneClosed;
    diagnostics := [];
    var ordered, closedByProbes, who := Gather(attempts, order);
    if cancelled {
      closed := CloseAllBut(attempts, ordered, None, closedByProbes, who);
      return None, [], closed;
    }
    var pick := Select(ordered, target, tracker);
    ChosenIsAvailable(old(HealthOf(tracker)), target, ordered);
    if pick.NoPick? {
      AllWork(attempts);
      closed := CloseAllBut(attempts, ordered, None, closedByProbes, who);
      return None, [], closed;
    }
    closed := CloseAllBut(attempts, ordered, Some(pick.index), closedByProbes, who);
    forall i | 0 <= i < |attempts|
      ensures ordered[i].acquisition.None? ==> ordered[i].diagnostic.status == Unavailable
    {
      HandleOf(attempts[i]);
    }
    diagnostics := Report(ordered, pick.index);
    returned := ordered[pick.index].acquisition;
    AllWork(attempts);
    forall i | 0 <= i < |attempts|
      ensures diagnostics[i] == Reported(attempts[i], returned)
    {
      ReportedAs(attempts, diagnostics, pick.index, i);
    }
  }

  /** What is reported of a provider once `returned` was handed on. */
  function Reported(a: Attempt, returned: Option<Handle>): (d: Diagnostic)
    ensures d.adapter == a.adapter
    ensures d.status == Unavailable <==> !Works(a)
    ensures d.status == SelectedRoute <==> Works(a) && returned == a.acquired
    ensures d.code == NotConfigured <==> !a.configured
    ensures d.code == AcquireFailed <==> a.configured && (a.failed || a.acquired.None?)
    ensures d.code == InvalidCandidate <==> a.configured && !a.failed && a.acquired.Some? && !a.valid
    ensures d.code == Ready <==> Works(a) && returned == a.acquired
  {
    if !Works(a) then Probe(a).diagnostic
    else if returned == a.acquired then Diagnostic(a.adapter, SelectedRoute, Ready)
    else Diagnostic(a.adapter, Available, NotSelected)
  }

  /** Exactly the working providers contribute an acquisition. */
  lemma AllWork(attempts: seq<Attempt>)
    ensures forall i | 0 <= i < |attempts| :: Works(attempts[i]) <==> Ordered(attempts)[i].acquisition.Some?
  {
    forall i | 0 <= i < |attempts|
      ensures Works(attempts[i]) <==> Ordered(attempts)[i].acquisition.Some?
    {
      ProbeMeans(attempts[i]);
    }
  }

  lemma ReportedAs(attempts: seq<Attempt>, diagnostics: seq<Diagnostic>, selected: nat, i: nat)
    requires DistinctHandles(attempts) && i < |attempts| && selected < |attempts| && Probe(attempts[selected]).acquisition.Some?
    requires |diagnostics| == |attempts| && diagnostics[i] == ReportOf(Probe(attempts[i]), i == selected)
    ensures diagnostics[i] == Reported(attempts[i], Probe(attempts[selected]).acquisition)
  {
    if i != selected && HandedOut(attempts[i]).Some? {
      DifferentHandles(attempts, i, selected);
    }
  }

  /** The selection loop: record, score, compare. */
  method Select(ordered: seq<Result>, target: string, tracker: HealthTracker?) returns (pick: Pick)
    modifies tracker
    ensures pick == Choose(Scores(old(HealthOf(tracker)), target, ordered))
    ensures tracker != null ==> tracker.samples == Recorded(old(tracker.samples), tracker.limit, target, ordered, |ordered|)
  {
    hide PenaltyOf, AfterRecord, SamplesOf;
    ghost var scores := Scores(HealthOf(tracker), target, ordered);
    var selected, bestScore := -1, 0x7FFF_FFFF_FFFF_FFFF;
    for index := 0 to |ordered|
      invariant -1 <= selected < index
      invariant tracker != null ==> tracker.samples == Recorded(old(tracker.samples), tracker.limit, target, ordered, index)
      invariant Choose(scores[..index]) == if selected < 0 then NoPick else Pick(selected, bestScore)
    {
      var result := ordered[index];
      var penalty := 0;
      if tracker != null {
        tracker.Record(target, result.adapter, Stable(result.quality), result.quality.median);
        penalty := tracker.Penalty(target, result.adapter);
      }
      assert scores[..index + 1][..index] == scores[..index];
      assert scores[index] == ScoreAt(old(HealthOf(tracker)), target, ordered, index);
      if result.acquisition.Some? {
        var score := QualityScore(result.quality) + penalty;
        assert scores[index] == Some(score);
        if selected < 0 || score + MARGIN < bestScore {
          selected, bestScore := index, score;
        }
      }
    }
    assert scores[..|ordered|] == scores;
    pick := if selected < 0 then NoPick else Pick(selected, bestScore);
  }

  function ReportOf(r: Result, selected: bool): Diagnostic {
    if r.acquisition.None? then r.diagnostic
    else if selected then r.diagnostic.(status := SelectedRoute)
    else r.diagnostic.(status := Available, code := NotSelected)
  }

  method Report(ordered: seq<Result>, selected: nat) returns (diagnostics: seq<Diagnostic>)
    requires selected < |ordered| && ordered[selected].acquisition.Some?
    requires forall i | 0 <= i < |ordered| && ordered[i].acquisition.None? :: ordered[i].diagnostic.status == Unavailable
    ensures |diagnostics| == |ordered|
    ensures forall i | 0 <= i < |ordered| :: diagnostics[i].status == SelectedRoute <==> i == selected
    ensures forall i | 0 <= i < |ordered| :: diagnostics[i] == ReportOf(ordered[i], i == selected)
  {
    diagnostics := [];
    for index := 0 to |ordered|
      invariant |diagnostics| == index
      invariant forall i | 0 <= i < index :: diagnostics[i] == ReportOf(ordered[i], i == selected)
      invariant forall i | 0 <= i < index :: diagnostics[i].status == SelectedRoute <==> i == selected
    {
      var diagnostic := ordered[index].diagnostic;
      if ordered[index].acquisition.Some? {
        diagnostic := if index == selected then diagnostic.(status := SelectedRoute)
                      else diagnostic.(status := Available, code := NotSelected);
      }
      diagnostics := diagnostics + [diagnostic];
    }
  }

  lemma ChosenIsAvailable(health: Health, target: string, ordered: seq<Result>)
    ensures var p := Choose(Scores(health, target, ordered));
            if p.Pick? then p.index < |ordered| && ordered[p.index].acquisition.Some?
            else forall i | 0 <= i < |ordered| :: ordered[i].acquisition.None?
  {
    hide PenaltyOf, Recorded, Choose;
    var scores := Scores(health, target, ordered);
    WinnerBounds(scores);
    assert forall i | 0 <= i < |ordered| :: scores[i].None? <==> ordered[i].acquisition.None?;
  }

  /** The closing loop: every result still open but the kept one. */
  method CloseAllBut(attempts: seq<Attempt>, ordered: seq<Result>, keep: Option<nat>, before: seq<Handle>, ghost whoBefore: seq<int>)
    returns (closed: seq<Handle>)
    requires ordered == Ordered(attempts) && DistinctHandles(attempts)
    requires keep.Some? ==> keep.value < |ordered| && ordered[keep.value].acquisition.Some?
    requires ClosedFor(attempts, before, whoBefore)
    requires forall i | 0 <= i < |attempts| :: i in whoBefore <==> SelfCloses(attempts[i])
    ensures AllButOneClosed(attempts, closed, if keep.Some? then ordered[keep.value].acquisition else None)
  {
    hide Probe, HandedOut;
    closed := before;
    ghost var who := whoBefore;
    for index := 0 to |ordered|
      invariant ClosedFor(attempts, closed, who)
      invariant forall i | 0 <= i < |attempts| ::
                  i in who <==> SelfCloses(attempts[i]) || (i < index && ordered[i].acquisition.Some? && Some(i) != keep)
    {
      assert ordered[index] == Probe(attempts[index]);
      HandleOf(attempts[index]);
      if ordered[index].acquisition.Some? && Some(index) != keep {
        closed := closed + [ordered[index].acquisition.value];
        who := who + [index];
      }
    }
    var returned := if keep.Some? then ordered[keep.value].acquisition else None;
    forall i | 0 <= i < |attempts| && HandedOut(attempts[i]).Some?
      ensures i in who <==> HandedOut(attempts[i]) != returned
    {
      HandleOf(attempts[i]);
      assert ordered[i] == Probe(attempts[i]);
      if keep.Some? {
        HandleOf(attempts[keep.value]);
        assert ordered[keep.value] == Probe(attempts[keep.value]);
        if i != keep.value {
          DifferentHandles(attempts, i, keep.value);
        }
      }
    }
    assert Leaves(attempts, who, returned);
    if keep.Some? {
      HandleOf(attempts[keep.value]);
    }
  }

  // ---- policy order without measuring ---------------------------------------------

  /** A provider that reports an error and still hands out an acquisition. */
  predicate Abandons(a: Attempt) {
    a.configured && a.failed && a.acquired.Some?
  }

  /** A candidate that was acquired and found to be malformed or of another adapter. */
  predicate Rejected(a: Attempt) {
    a.configured && !a.failed && a.acquired.Some? && !a.valid
  }

  /** Asking one provider on this path: it is the caller's loop that closes a rejected
      candidate, and nothing closes what came with an error. */
  method AskProvider(a: Attempt) returns (returned: Option<Handle>, closed: seq<Handle>)
    ensures returned == Probe(a).acquisition && closed == if Rejected(a) then [a.acquired.value] else []
  {
    if !a.configured || a.failed || a.acquired.None? {
      return None, [];
    }
    if !a.valid {
      return None, [a.acquired.value];
    }
    return a.acquired, [];
  }

  /** How many of the providers from `i` on are asked in all: up to the first usable one,
      or until the context has ended. */
  function AskedFrom(attempts: seq<Attempt>, cancelledAt: Option<nat>, i: nat): nat
    decreases |attempts| - i
  {
    if i >= |attempts| || cancelledAt == Some(i) then i
    else if Probe(attempts[i]).acquisition.Some? then i + 1
    else AskedFrom(attempts, cancelledAt, i + 1)
  }

  function Asked(attempts: seq<Attempt>, cancelledAt: Option<nat>): seq<Attempt> {
    AskedAtMost(attempts, cancelledAt, 0);
    attempts[..AskedFrom(attempts, cancelledAt, 0)]
  }

  /** Only the provider asked last can be usable. */
  function ReturnedBy(asked: seq<Attempt>): Option<Handle> {
    if asked == [] then None else Probe(asked[|asked| - 1]).acquisition
  }

  function ClosedBy(asked: seq<Attempt>): seq<Handle> {
    if asked == [] then []
    else
      var last := asked[|asked| - 1];
      ClosedBy(asked[..|asked| - 1]) + if Rejected(last) then [last.acquired.value] else []
  }

  lemma {:induction false} AskedAtMost(attempts: seq<Attempt>, cancelledAt: Option<nat>, i: nat)
    requires i <= |attempts|
    ensures i <= AskedFrom(attempts, cancelledAt, i) <= |attempts|
    ensures forall k | i <= k < AskedFrom(attempts, cancelledAt, i) - 1 :: Probe(attempts[k]).acquisition.None?
    decreases |attempts| - i
  {
    hide Probe;
    if i < |attempts| && cancelledAt != Some(i) && Probe(attempts[i]).acquisition.None? {
      AskedAtMost(attempts, cancelledAt, i + 1);
    }
  }

  /** Selector.Acquire without EvaluateAll: the first usable provider wins and later ones
      are never asked. `cancelledAt` says before which provider the context ended. */
  method AcquireFirst(attempts: seq<Attempt>, cancelledAt: Option<nat>) returns (returned: Option<Handle>, asked: nat, closed: seq<Handle>)
    ensures asked <= |attempts| && attempts[..asked] == Asked(attempts, cancelledAt)
    ensures returned == ReturnedBy(Asked(attempts, cancelledAt)) && closed == ClosedBy(Asked(attempts, cancelledAt))
    ensures returned.None? ==> asked == |attempts| || cancelledAt == Some(asked)
  {
    hide Probe, Rejected;
    returned, asked, closed := None, 0, [];
    AskedAtMost(attempts, cancelledAt, 0);
    while asked < |attempts|
      invariant asked <= |attempts| && AskedFrom(attempts, cancelledAt, asked) == AskedFrom(attempts, cancelledAt, 0)
      invariant closed == ClosedBy(attempts[..asked]) && ReturnedBy(attempts[..asked]).None?
    {
      if cancelledAt == Some(asked) {
        return;
      }
      var acquisition, now := AskProvider(attempts[asked]);
      assert attempts[..asked + 1][..asked] == attempts[..asked];
      closed := closed + now;
      asked := asked + 1;
      if acquisition.Some? {
        return acquisition, asked, closed;
      }
    }
  }

  /** Nothing that was handed out is left open but what is returned. */
  predicate NothingLeftOpen(asked: seq<Attempt>) {
    forall i | 0 <= i < |asked| && HandedOut(asked[i]).Some? ::
      HandedOut(asked[i]) == ReturnedBy(asked) || HandedOut(asked[i]).value in ClosedBy(asked)
  }

  /** The handle is that of a rejected candidate. */
  predicate OfRejected(asked: seq<Attempt>, h: Handle) {
    exists a | a in asked :: Rejected(a) && a.acquired == Some(h)
  }

  lemma {:induction false} ClosedWereRejected(asked: seq<Attempt>, h: Handle)
    ensures h in ClosedBy(asked) <==> OfRejected(asked, h)
  {
    if asked != [] {
      var init, last := asked[..|asked| - 1], asked[|asked| - 1];
      ClosedWereRejected(init, h);
      assert asked == init + [last];
    }
  }

  /** Closed are exactly the rejected candidates, each once; the returned one is not. */
  lemma {:induction false} RejectedAreClosedOnce(asked: seq<Attempt>)
    requires DistinctHandles(asked)
    ensures NoDup(ClosedBy(asked))
    ensures forall h :: h in ClosedBy(asked) <==> OfRejected(asked, h)
    ensures ReturnedBy(asked).Some? ==> ReturnedBy(asked).value !in ClosedBy(asked)
  {
    forall h
      ensures h in ClosedBy(asked) <==> OfRejected(asked, h)
    {
      ClosedWereRejected(asked, h);
    }
    if asked != [] {
      var init, last := asked[..|asked| - 1], asked[|asked| - 1];
      RejectedAreClosedOnce(init);
      if HandedOut(last).Some? {
        NotRejectedBefore(asked);
      }
    }
  }

  lemma NotRejectedBefore(asked: seq<Attempt>)
    requires DistinctHandles(asked) && asked != [] && HandedOut(asked[|asked| - 1]).Some?
    ensures !OfRejected(asked[..|asked| - 1], asked[|asked| - 1].acquired.value)
  {
    var init, last := asked[..|asked| - 1], asked[|asked| - 1];
    forall a | a in init && Rejected(a)
      ensures a.acquired != last.acquired
    {
      var k :| 0 <= k < |init| && init[k] == a;
      DifferentHandles(asked, k, |init|);
    }
  }

  /** What is acquired is closed or returned if and only if no provider that was asked
      handed out an acquisition together with an error: that one stays open for good. */
  lemma LeavesNothingOpenExactly(attempts: seq<Attempt>, cancelledAt: Option<nat>)
    requires DistinctHandles(attempts)
    ensures var asked := Asked(attempts, cancelledAt);
            NothingLeftOpen(asked) <==> forall i | 0 <= i < |asked| :: !Abandons(asked[i])
  {
    AskedAtMost(attempts, cancelledAt, 0);
    var asked := Asked(attempts, cancelledAt);
    forall i | 0 <= i < |asked| && HandedOut(asked[i]).Some?
      ensures Abandons(asked[i]) <==> HandedOut(asked[i]) != ReturnedBy(asked) && HandedOut(asked[i]).value !in ClosedBy(asked)
    {
      if Abandons(asked[i]) {
        StaysOpen(asked, i);
      } else if Rejected(asked[i]) {
        ClosedWereRejected(asked, asked[i].acquired.value);
      } else {
        assert i == |asked| - 1;
      }
    }
  }

  /** What came with an error is neither returned nor closed. */
  lemma StaysOpen(asked: seq<Attempt>, i: nat)
    requires DistinctHandles(asked) && i < |asked| && Abandons(asked[i])
    ensures HandedOut(asked[i]) != ReturnedBy(asked) && HandedOut(asked[i]).value !in ClosedBy(asked)
  {
    var h := asked[i].acquired.value;
    ClosedWereRejected(asked, h);
    forall a | a in asked && Rejected(a)
      ensures a.acquired != Some(h)
    {
      var k :| 0 <= k < |asked| && asked[k] == a;
      DifferentHandles(asked, i, k);
    }
    if i < |asked| - 1 && HandedOut(asked[|asked| - 1]).Some? {
      DifferentHandles(asked, i, |asked| - 1);
    }
  }

  /** One provider that hands out acquisition 7 with an error: it is neither returned nor
      closed, whereas measuring closes it. */
  lemma LeftOpenExample()
    ensures var attempts := [Attempt("lan", true, true, Some(7), true, None, 0)];
            && Asked(attempts, None) == attempts && HandedOut(attempts[0]) == Some(7)
            && ReturnedBy(attempts) == None && ClosedBy(attempts) == [] && !NothingLeftOpen(attempts)
            && SelfCloses(attempts[0])
  {
    var attempts := [Attempt("lan", true, true, Some(7), true, None, 0)];
    assert attempts[..0] == [];
    assert AskedFrom(attempts, None, 1) == 1;
    assert HandedOut(attempts[0]).value !in ClosedBy(attempts);
  }

  // ---- reachability ---------------------------------------------------------------

  predicate Shorter(a: int, b: int) {
    a < b
  }

  /** `m` stands in the middle of the values once they are sorted. */
  ghost predicate IsMedian(values: seq<int>, m: int) {
    if values == [] then m == 0
    else exists s :: Sorted(Shorter, s) && multiset(s) == multiset(values) && |s| == |values| && m == s[|s| / 2]
  }

  method MedianDuration(values: seq<int>) returns (m: int)
    ensures IsMedian(values, m)
  {
    if |values| == 0 {
      return 0;
    }
    var a := new int[|values|](i requires 0 <= i < |values| => values[i]);
    assert a[..] == values;
    for index := 1 to a.Length
      invariant Sorted(Shorter, a[..index]) && multiset(a[..]) == multiset(values)
    {
      var current := index;
      while current > 0 && a[current] < a[current - 1]
        invariant 0 <= current <= index
        invariant SortedBut(Shorter, a[..], index, current) && multiset(a[..]) == multiset(values)
      {
        SwapLeft(Shorter, a[..], index, current);
        ghost var before := a[..];
        a[current], a[current - 1] := a[current - 1], a[current];
        assert a[..] == before[current := before[current - 1]][current - 1 := before[current]];
        current := current - 1;
      }
      Settles(Shorter, a[..], index, current);
      assert a[..][..index + 1] == a[..index + 1];
    }
    assert a[..a.Length] == a[..];
    m := a[a.Length / 2];
  }

  /** Any two medians of the same values agree. */
  lemma MedianIsUnique(values: seq<int>, m: int, n: int)
    requires IsMedian(values, m) && IsMedian(values, n)
    ensures m == n
  {
    if values != [] {
      var s :| Sorted(Shorter, s) && multiset(s) == multiset(values) && |s| == |values| && m == s[|s| / 2];
      var t :| Sorted(Shorter, t) && multiset(t) == multiset(values) && |t| == |values| && n == t[|t| / 2];
      SortedIsUnique(Shorter, s, t);
    }
  }

  datatype Dial = Dial(connects: bool, took: int, contextEnded: bool)

  function Connections(dials: seq<Dial>): nat {
    if dials == [] then 0 else Connections(dials[..|dials| - 1]) + if dials[|dials| - 1].connects then 1 else 0
  }

  lemma {:induction false} ConnectionsAreCounted(dials: seq<Dial>)
    ensures Connections(dials) == |set i | 0 <= i < |dials| && dials[i].connects|
  {
    if dials != [] {
      var init, last := dials[..|dials| - 1], |dials| - 1;
      ConnectionsAreCounted(init);
      assert (set i | 0 <= i < |dials| && dials[i].connects)
          == (set i | 0 <= i < |init| && init[i].connects) + if dials[last].connects then {last} else {};
    }
  }

  /** ReachableProvider.Acquire over the dials that would be made, at least one. The
      acquisition is handed on only if two thirds of them connect and the context lives.
      Otherwise it is closed exactly once if it was handed out without an error, and left
      open if it came with one. */
  method AcquireReachable(configured: bool, acquired: Option<Handle>, failed: bool, valid: bool, requested: int, dials: seq<Dial>)
    returns (returned: Option<Handle>, quality: Quality, closed: seq<Handle>)
    requires |dials| == if requested <= 0 then 1 else requested
    ensures returned.Some? <==> configured && acquired.Some? && !failed && valid && (forall i | 0 <= i < |dials| :: !dials[i].contextEnded)
                                && Connections(dials) * 3 >= |dials| * 2
    ensures returned.Some? ==>
              && returned == acquired && closed == []
              && quality.samples == |dials| && quality.successes == Connections(dials)
              && IsMedian(seq(|dials|, i requires 0 <= i < |dials| => dials[i].took), quality.median)
    ensures returned.None? ==> closed == if configured && acquired.Some? && !failed then [acquired.value] else []
  {
    returned, quality, closed := None, Quality(0, 0, 0), [];
    if !configured || failed || acquired.None? {
      return;
    }
    if !valid {
      return None, quality, [acquired.value];
    }
    var samples := if requested <= 0 then 1 else requested;
    var latencies: seq<int> := [];
    var successes := 0;
    for index := 0 to samples
      invariant latencies == seq(index, i requires 0 <= i < index => dials[i].took)
      invariant successes == Connections(dials[..index])
      invariant forall i | 0 <= i < index :: !dials[i].contextEnded
    {
      latencies := latencies + [dials[index].took];
      assert dials[..index + 1][..index] == dials[..index];
      if dials[index].connects {
        successes := successes + 1;
      }
      if dials[index].contextEnded {
        return None, quality, [acquired.value];
      }
    }
    assert dials[..|dials|] == dials;
    if successes * 3 < samples * 2 {
      return None, quality, [acquired.value];
    }
    var median := MedianDuration(latencies);
    return acquired, Quality(samples, successes, median), [];
  }
}
