/** The authorization-filtered view of a loaded snapshot. Times are in nanoseconds. */
module Catalog {
  import opened Common
  import opened Snapshots
  import Sorting
  import SnapshotStore

  const SECOND := 1_000_000_000
  const DEFAULT_AUTHORIZATION_TTL := 7 * 24 * 3600 * SECOND

  datatype Authorization = Authorization(active: bool, validUntil: int, remainingSeconds: int)

  /** One entry of the list: a Capability the subject may use. */
  datatype Offer = Offer(canonical: Target, alias: string, device: Device, capability: Capability, authorization: Authorization)

  /** `subject` is empty for the Owner's own unfiltered view. */
  datatype View = View(fabric: string, devices: seq<Device>, capabilities: seq<Capability>, grants: seq<Grant>,
                       subject: string, capturedAt: int)

  function ViewOf(s: Snapshot, subject: string): View {
    View(s.fabric, s.devices, s.capabilities, s.grants, subject, s.capturedAt)
  }

  function AuthorizationAt(now: int, validUntil: int): Authorization {
    if now < validUntil then Authorization(true, validUntil, (validUntil - now) / SECOND) else Authorization(false, validUntil, 0)
  }

  // ---- what may be offered --------------------------------------------------------------

  /** One character equal to a lower-case ASCII letter under simple case folding. */
  predicate Folds(c: char, lower: char) {
    c == lower || ('a' <= lower <= 'z' && c as int == lower as int - 32) || (lower == 'k' && c == '\U{212a}') || (lower == 's' && c == '\U{17f}')
  }

  predicate ShowsRevoked(d: Device) {
    |d.state| == |REVOKED| && forall i | 0 <= i < |REVOKED| :: Folds(d.state[i], REVOKED[i])
  }

  lemma MarkedShowsRevoked(d: Device)
    requires d.state == REVOKED
    ensures ShowsRevoked(d)
  {
  }

  /** A text in lower case, as far as its letters can spell a plain word. */
  function Lowered(text: string): string {
    seq(|text|, i requires 0 <= i < |text| =>
      if 'A' <= text[i] <= 'Z' then (text[i] as int + 32) as char
      else if text[i] == '\U{212a}' then 'k' else if text[i] == '\U{17f}' then 's' else text[i])
  }

  /** A Device is shown as revoked exactly if its state spells that word, in any case. */
  lemma RevokedIsSpelt(d: Device)
    ensures ShowsRevoked(d) <==> Lowered(d.state) == "revoked"
  {
    var word := "revoked";
    assert |word| == 7 && REVOKED == word;
    if ShowsRevoked(d) {
      forall i | 0 <= i < 7
        ensures Lowered(d.state)[i] == word[i]
      {
        assert Folds(d.state[i], REVOKED[i]);
      }
    }
    if Lowered(d.state) == word {
      forall i | 0 <= i < 7
        ensures Folds(d.state[i], REVOKED[i])
      {
        assert Lowered(d.state)[i] == word[i];
      }
    }
  }

  /** The first Device with an ID, as the catalog looks it up. */
  function Find(devices: seq<Device>, id: string): Option<Device> {
    if devices == [] then None else if devices[0].id == id then Some(devices[0]) else Find(devices[1..], id)
  }

  lemma {:induction false} FindIsThere(devices: seq<Device>, id: string)
    ensures Find(devices, id).Some? <==> HasDevice(devices, id)
    ensures Find(devices, id).Some? ==> Find(devices, id).value in devices && Find(devices, id).value.id == id
  {
    if devices != [] {
      assert devices == [devices[0]] + devices[1..];
      FindIsThere(devices[1..], id);
    }
  }

  predicate Usable(devices: seq<Device>, id: string) {
    Find(devices, id).Some? && !ShowsRevoked(Find(devices, id).value)
  }

  function CacheUntil(v: View): int {
    v.capturedAt + DEFAULT_AUTHORIZATION_TTL
  }

  /** A grant never outlives the cached snapshot. */
  function GrantUntil(v: View, g: Grant): int {
    if g.validUntil.Some? && g.validUntil.value < CacheUntil(v) then g.validUntil.value else CacheUntil(v)
  }

  predicate Live(v: View, now: int, g: Grant, capability: string) {
    g.subject == v.subject && g.state == ACTIVE && g.capability == capability && now < GrantUntil(v, g)
  }

  /** The subject may use the Capability until exactly this time: the latest end of a
      live grant, or the end of the cache for the unfiltered view. */
  ghost predicate AuthorizedUntil(v: View, now: int, capability: string, until: int) {
    if v.subject == "" && now < CacheUntil(v) then until == CacheUntil(v)
    else
      && (exists g | g in v.grants :: Live(v, now, g, capability) && GrantUntil(v, g) == until)
      && (forall g | g in v.grants && Live(v, now, g, capability) :: GrantUntil(v, g) <= until)
  }

  predicate Authorized(v: View, now: int, capability: string) {
    (v.subject == "" && now < CacheUntil(v)) || exists g | g in v.grants :: Live(v, now, g, capability)
  }

  predicate SubjectUsable(v: View) {
    v.subject == "" || Usable(v.devices, v.subject)
  }

  predicate Offered(v: View, now: int, c: Capability) {
    SubjectUsable(v) && Authorized(v, now, c.id) && Usable(v.devices, c.device)
  }

  ghost predicate OffersExactly(v: View, now: int, c: Capability, o: Offer) {
    && o.capability == c && Find(v.devices, c.device) == Some(o.device)
    && o.canonical == Target(v.fabric, c.device, c.id) && o.alias == o.device.alias + "/" + c.alias
    && o.authorization == AuthorizationAt(now, o.authorization.validUntil) && now < o.authorization.validUntil
    && AuthorizedUntil(v, now, c.id, o.authorization.validUntil)
  }

  function OfferedOnly(v: View, now: int, capabilities: seq<Capability>): seq<Capability> {
    if capabilities == [] then []
    else
      var last := capabilities[|capabilities| - 1];
      OfferedOnly(v, now, capabilities[..|capabilities| - 1]) + if Offered(v, now, last) then [last] else []
  }

  lemma {:induction false} OfferedOnlyKeeps(v: View, now: int, capabilities: seq<Capability>)
    ensures forall c :: c in OfferedOnly(v, now, capabilities) <==> c in capabilities && Offered(v, now, c)
  {
    if capabilities != [] {
      var init, last := capabilities[..|capabilities| - 1], capabilities[|capabilities| - 1];
      assert capabilities == init + [last];
      OfferedOnlyKeeps(v, now, init);
    }
  }

  // ---- List -------------------------------------------------------------------------------

  /** The authorization recorded for each Capability of the first `n` grants. */
  ghost predicate Records(v: View, now: int, n: nat, granted: map<string, Authorization>)
    requires n <= |v.grants|
  {
    && (forall k | 0 <= k < n && Live(v, now, v.grants[k], v.grants[k].capability) ::
          v.grants[k].capability in granted && GrantUntil(v, v.grants[k]) <= granted[v.grants[k].capability].validUntil)
    && (forall id | id in granted ::
          && granted[id] == AuthorizationAt(now, granted[id].validUntil) && now < granted[id].validUntil
          && exists k | 0 <= k < n :: Live(v, now, v.grants[k], id) && GrantUntil(v, v.grants[k]) == granted[id].validUntil)
  }

  method GrantedCapabilities(v: View, now: int) returns (granted: map<string, Authorization>)
    ensures Records(v, now, |v.grants|, granted)
  {
    granted := map[];
    var cache := AuthorizationAt(now, CacheUntil(v));
    for i := 0 to |v.grants|
      invariant Records(v, now, i, granted)
    {
      var grant := v.grants[i];
      if grant.subject == v.subject && grant.state == ACTIVE {
        var validUntil := cache.validUntil;
        if grant.validUntil.Some? && grant.validUntil.value < validUntil {
          validUntil := grant.validUntil.value;
        }
        var authorization := AuthorizationAt(now, validUntil);
        if authorization.active
           && (grant.capability !in granted || authorization.validUntil > granted[grant.capability].validUntil) {
          granted := granted[grant.capability := authorization];
          assert Live(v, now, v.grants[i], grant.capability);
        }
      }
    }
  }

  lemma RecordedIsBest(v: View, now: int, granted: map<string, Authorization>, id: string)
    requires Records(v, now, |v.grants|, granted) && !(v.subject == "" && now < CacheUntil(v))
    ensures id in granted <==> Authorized(v, now, id)
    ensures id in granted ==> AuthorizedUntil(v, now, id, granted[id].validUntil)
  {
    if id in granted {
      var k :| 0 <= k < |v.grants| && Live(v, now, v.grants[k], id) && GrantUntil(v, v.grants[k]) == granted[id].validUntil;
      assert v.grants[k] in v.grants;
    }
  }

  predicate AliasBefore(a: Offer, b: Offer) {
    Before(a.alias, b.alias)
  }

  lemma AliasesAreOrdered()
    ensures Sorting.WeakOrder(AliasBefore)
  {
    Sorting.BeforeIsOrder();
    Sorting.OrderIsWeak(Before);
    assert forall a: Offer, b: Offer :: AliasBefore(a, b) == Before(a.alias, b.alias);
  }

  /** `offers` answers the Capabilities one for one. */
  ghost predicate Answers(v: View, now: int, capabilities: seq<Capability>, offers: seq<Offer>) {
    |offers| == |capabilities| && forall i | 0 <= i < |offers| :: OffersExactly(v, now, capabilities[i], offers[i])
  }

  method Collect(v: View, now: int) returns (offers: seq<Offer>)
    requires SubjectUsable(v)
    ensures Answers(v, now, OfferedOnly(v, now, v.capabilities), offers)
  {
    hide Authorized, AuthorizedUntil, Records, Find, ShowsRevoked;
    var granted := GrantedCapabilities(v, now);
    var cache := AuthorizationAt(now, CacheUntil(v));
    offers := [];
    for i := 0 to |v.capabilities|
      invariant Answers(v, now, OfferedOnly(v, now, v.capabilities[..i]), offers)
    {
      var capability := v.capabilities[i];
      assert v.capabilities[..i + 1][..i] == v.capabilities[..i];
      var authorization: Option<Authorization> := if capability.id in granted then Some(granted[capability.id]) else None;
      if v.subject == "" && cache.active {
        authorization := Some(cache);
      }
      AuthorizationFound(v, now, granted, capability.id, authorization);
      var device := Find(v.devices, capability.device);
      if authorization.Some? && device.Some? && !ShowsRevoked(device.value) {
        FindIsThere(v.devices, capability.device);
        offers := offers + [Offer(Target(v.fabric, device.value.id, capability.id), device.value.alias + "/" + capability.alias,
                                  device.value, capability, authorization.value)];
      }
    }
    assert v.capabilities[..|v.capabilities|] == v.capabilities;
  }

  lemma AuthorizationFound(v: View, now: int, granted: map<string, Authorization>, id: string, found: Option<Authorization>)
    requires Records(v, now, |v.grants|, granted)
    requires found == if v.subject == "" && now < CacheUntil(v) then Some(AuthorizationAt(now, CacheUntil(v)))
                      else if id in granted then Some(granted[id]) else None
    ensures found.Some? <==> Authorized(v, now, id)
    ensures found.Some? ==> found.value == AuthorizationAt(now, found.value.validUntil) && now < found.value.validUntil
                            && AuthorizedUntil(v, now, id, found.value.validUntil)
  {
    if !(v.subject == "" && now < CacheUntil(v)) {
      RecordedIsBest(v, now, granted, id);
    }
  }

  /** Every Capability the subject may use appears exactly once, with the latest end of
      its authorization, ordered by alias; nothing else appears. */
  ghost predicate IsListing(v: View, now: int, result: seq<Offer>) {
    && Sorting.Sorted(AliasBefore, result)
    && exists offers :: multiset(result) == multiset(offers) && Answers(v, now, OfferedOnly(v, now, v.capabilities), offers)
  }

  method List(v: View, now: int) returns (result: seq<Offer>)
    ensures IsListing(v, now, result)
  {
    hide Authorized, AuthorizedUntil, OffersExactly;
    if v.subject != "" {
      var subject := Find(v.devices, v.subject);
      if subject.None? || ShowsRevoked(subject.value) {
        NothingOffered(v, now, v.capabilities);
        result := [];
        assert Answers(v, now, OfferedOnly(v, now, v.capabilities), []);
        return;
      }
    }
    assert SubjectUsable(v);
    var offers := Collect(v, now);
    AliasesAreOrdered();
    result := Sorting.SortedCopy(AliasBefore, offers);
  }

  lemma {:induction false} NothingOffered(v: View, now: int, capabilities: seq<Capability>)
    requires !SubjectUsable(v)
    ensures OfferedOnly(v, now, capabilities) == []
  {
    if capabilities != [] {
      NothingOffered(v, now, capabilities[..|capabilities| - 1]);
    }
  }

  /** What List's contract says of one offer and of one Capability. */
  lemma ListedMeansOffered(v: View, now: int, result: seq<Offer>)
    requires IsListing(v, now, result)
    ensures forall o | o in result :: o.capability in v.capabilities && Offered(v, now, o.capability)
                                      && OffersExactly(v, now, o.capability, o)
    ensures forall c | c in v.capabilities && Offered(v, now, c) :: exists o | o in result :: OffersExactly(v, now, c, o)
  {
    hide OffersExactly, Offered;
    var offers :| multiset(result) == multiset(offers) && Answers(v, now, OfferedOnly(v, now, v.capabilities), offers);
    var offered := OfferedOnly(v, now, v.capabilities);
    OfferedOnlyKeeps(v, now, v.capabilities);
    SameMembers(result, offers);
    forall o | o in result
      ensures o.capability in v.capabilities && Offered(v, now, o.capability) && OffersExactly(v, now, o.capability, o)
    {
      var i :| 0 <= i < |offers| && offers[i] == o;
      assert offered[i] in offered;
      OfferCapability(v, now, offered[i], o);
    }
    forall c | c in v.capabilities && Offered(v, now, c)
      ensures exists o | o in result :: OffersExactly(v, now, c, o)
    {
      var i :| 0 <= i < |offered| && offered[i] == c;
      assert offers[i] in result;
    }
  }

  lemma OfferCapability(v: View, now: int, c: Capability, o: Offer)
    requires OffersExactly(v, now, c, o)
    ensures o.capability == c
  {
  }

  // ---- what that means in terms of the grants -------------------------------------------------

  /** The snapshot is less than seven days old, and some active grant of the subject for
      the Capability has not ended; the unfiltered view needs no grant. */
  ghost predicate MayUse(v: View, now: int, capability: string) {
    && now < v.capturedAt + 604_800_000_000_000
    && (v.subject == "" || exists g | g in v.grants :: HasGrant(v, now, g, capability))
  }

  predicate HasGrant(v: View, now: int, g: Grant, capability: string) {
    && g.subject == v.subject && g.state == "active" && g.capability == capability
    && (g.validUntil.None? || now < g.validUntil.value)
  }

  predicate FirstWith(devices: seq<Device>, id: string, d: Device) {
    exists k | 0 <= k < |devices| :: devices[k] == d && d.id == id && forall j | 0 <= j < k :: devices[j].id != id
  }

  /** The Device is there and not revoked. */
  ghost predicate Present(devices: seq<Device>, id: string) {
    exists d :: FirstWith(devices, id, d) && Lowered(d.state) != "revoked"
  }

  /** How long an authorization holds: to the end of the seven days, or to the latest end of
      a grant if that is earlier; the whole seconds left are shown. */
  ghost predicate Holds(v: View, now: int, capability: string, a: Authorization) {
    var week := v.capturedAt + 604_800_000_000_000;
    && a.active && now < a.validUntil <= week
    && a.remainingSeconds * 1_000_000_000 <= a.validUntil - now < (a.remainingSeconds + 1) * 1_000_000_000
    && (v.subject == "" ==> a.validUntil == week)
    && (v.subject != "" ==>
          && (exists g | g in v.grants :: HasGrant(v, now, g, capability)
                && (a.validUntil == week || g.validUntil == Some(a.validUntil))
                && (g.validUntil.Some? ==> a.validUntil <= g.validUntil.value))
          && forall g | g in v.grants && HasGrant(v, now, g, capability) ::
               week <= a.validUntil || (g.validUntil.Some? && g.validUntil.value <= a.validUntil))
  }

  /** A Capability is listed exactly if the subject may use it and neither its Device nor the
      subject is missing or revoked. */
  lemma ListedExactly(v: View, now: int, result: seq<Offer>)
    requires IsListing(v, now, result)
    ensures forall c | c in v.capabilities ::
              (exists o | o in result :: o.capability == c)
              <==> MayUse(v, now, c.id) && Present(v.devices, c.device) && (v.subject == "" || Present(v.devices, v.subject))
    ensures forall o | o in result ::
              && o.capability in v.capabilities && FirstWith(v.devices, o.capability.device, o.device)
              && o.canonical == Target(v.fabric, o.capability.device, o.capability.id)
              && o.alias == o.device.alias + "/" + o.capability.alias
              && Holds(v, now, o.capability.id, o.authorization)
    ensures forall i, j | 0 <= i < j < |result| :: !Before(result[j].alias, result[i].alias)
  {
    ListedInOrder(v, now, result);
    hide IsListing, OffersExactly, MayUse, Present, FirstWith, Holds, Find, ShowsRevoked, Authorized;
    ListedMeansOffered(v, now, result);
    forall c | c in v.capabilities
      ensures Offered(v, now, c)
              <==> MayUse(v, now, c.id) && Present(v.devices, c.device) && (v.subject == "" || Present(v.devices, v.subject))
    {
      MayUseMeans(v, now, c.id);
      PresentMeans(v.devices, c.device);
      PresentMeans(v.devices, v.subject);
    }
    forall c, o | c in v.capabilities && OffersExactly(v, now, c, o)
      ensures o.capability == c && FirstWith(v.devices, c.device, o.device)
      ensures o.canonical == Target(v.fabric, c.device, c.id) && o.alias == o.device.alias + "/" + c.alias
      ensures Holds(v, now, c.id, o.authorization)
    {
      OfferMeans(v, now, c, o);
    }
  }

  lemma ListedInOrder(v: View, now: int, result: seq<Offer>)
    requires IsListing(v, now, result)
    ensures forall i, j | 0 <= i < j < |result| :: !Before(result[j].alias, result[i].alias)
  {
    hide Answers;
    forall i, j | 0 <= i < j < |result|
      ensures !Before(result[j].alias, result[i].alias)
    {
      assert !AliasBefore(result[j], result[i]);
    }
  }

  lemma OfferMeans(v: View, now: int, c: Capability, o: Offer)
    requires OffersExactly(v, now, c, o)
    ensures o.capability == c && FirstWith(v.devices, c.device, o.device)
    ensures o.canonical == Target(v.fabric, c.device, c.id) && o.alias == o.device.alias + "/" + c.alias
    ensures Holds(v, now, c.id, o.authorization)
  {
    hide FirstWith, Find, Holds, AuthorizedUntil, AuthorizationAt;
    FindIsFirst(v.devices, c.device);
    HoldsMeans(v, now, c.id, o.authorization);
  }

  lemma MayUseMeans(v: View, now: int, capability: string)
    ensures Authorized(v, now, capability) <==> MayUse(v, now, capability)
  {
    forall g | g in v.grants
      ensures Live(v, now, g, capability) <==> now < v.capturedAt + 604_800_000_000_000 && HasGrant(v, now, g, capability)
    {
    }
  }

  lemma HoldsMeans(v: View, now: int, capability: string, a: Authorization)
    requires a == AuthorizationAt(now, a.validUntil) && now < a.validUntil && AuthorizedUntil(v, now, capability, a.validUntil)
    ensures Holds(v, now, capability, a)
  {
    assert (a.validUntil - now) == (a.validUntil - now) / SECOND * SECOND + (a.validUntil - now) % SECOND;
    forall g | g in v.grants
      ensures Live(v, now, g, capability) <==> now < v.capturedAt + 604_800_000_000_000 && HasGrant(v, now, g, capability)
    {
    }
    if v.subject != "" {
      var g :| g in v.grants && Live(v, now, g, capability) && GrantUntil(v, g) == a.validUntil;
      assert HasGrant(v, now, g, capability);
    }
  }

  lemma {:induction false} FindIsFirst(devices: seq<Device>, id: string)
    ensures Find(devices, id).Some? ==> FirstWith(devices, id, Find(devices, id).value)
    ensures Find(devices, id).None? ==> forall d | d in devices :: d.id != id
  {
    if devices != [] && devices[0].id != id {
      FindIsFirst(devices[1..], id);
      if Find(devices, id).Some? {
        var d, k :| 0 <= k < |devices[1..]| && devices[1..][k] == d && d == Find(devices, id).value
                    && d.id == id && forall j | 0 <= j < k :: devices[1..][j].id != id;
        assert devices[k + 1] == d && forall j | 0 <= j < k + 1 :: devices[j].id != id;
      }
    }
  }

  lemma PresentMeans(devices: seq<Device>, id: string)
    ensures Usable(devices, id) <==> Present(devices, id)
  {
    hide ShowsRevoked, Lowered;
    FindIsFirst(devices, id);
    if Find(devices, id).Some? {
      RevokedIsSpelt(Find(devices, id).value);
    }
    forall d | FirstWith(devices, id, d)
      ensures Find(devices, id) == Some(d)
    {
    }
  }

  // ---- Resolve ----------------------------------------------------------------------------

  /** A parsed target reference, or alias text after trimming and lower-casing. */
  datatype Query = Malformed | Canonical(target: Target) | Alias(text: string)

  function Prefixed(names: seq<string>, suffix: string): seq<string> {
    seq(|names|, i requires 0 <= i < |names| => names[i] + "/" + suffix)
  }

  function Suffixed(prefix: string, names: seq<string>): seq<string> {
    seq(|names|, i requires 0 <= i < |names| => prefix + "/" + names[i])
  }

  /** Every name an offer answers to. */
  function Aliases(o: Offer): seq<string> {
    [o.alias] + Prefixed(o.device.previousAliases, o.capability.alias) + Suffixed(o.device.alias, o.capability.previousAliases)
  }

  /** Those are the current alias, and each of them with one former name in place of the
      Device's or the Capability's. */
  lemma AliasesAre(o: Offer, text: string)
    ensures text in Aliases(o) <==>
            || text == o.alias
            || (exists name | name in o.device.previousAliases :: text == name + "/" + o.capability.alias)
            || exists name | name in o.capability.previousAliases :: text == o.device.alias + "/" + name
  {
    var former, other := o.device.previousAliases, o.capability.previousAliases;
    var left, right := Prefixed(former, o.capability.alias), Suffixed(o.device.alias, other);
    forall name | name in former
      ensures name + "/" + o.capability.alias in left
    {
      var i :| 0 <= i < |former| && former[i] == name;
      assert left[i] in left;
    }
    forall name | name in other
      ensures o.device.alias + "/" + name in right
    {
      var i :| 0 <= i < |other| && other[i] == name;
      assert right[i] in right;
    }
  }

  predicate Matches(lower: string -> string, v: View, query: Query, o: Offer) {
    match query
    case Malformed => false
    case Canonical(target) => target.fabric == v.fabric && o.device.id == target.device && o.capability.id == target.capability
    case Alias(text) => exists i | 0 <= i < |Aliases(o)| :: lower(Aliases(o)[i]) == text
  }

  /** A query matches by the whole reference, or by one of those names in lower case. */
  lemma MatchesMean(lower: string -> string, v: View, query: Query, o: Offer)
    ensures Matches(lower, v, query, o) <==>
            || query == Canonical(Target(v.fabric, o.device.id, o.capability.id))
            || (query.Alias?
                && (|| lower(o.alias) == query.text
                    || (exists name | name in o.device.previousAliases :: lower(name + "/" + o.capability.alias) == query.text)
                    || exists name | name in o.capability.previousAliases :: lower(o.device.alias + "/" + name) == query.text))
  {
    if query.Alias? {
      forall text
        ensures text in Aliases(o) <==>
                || text == o.alias
                || (exists name | name in o.device.previousAliases :: text == name + "/" + o.capability.alias)
                || exists name | name in o.capability.previousAliases :: text == o.device.alias + "/" + name
      {
        AliasesAre(o, text);
      }
      hide Aliases;
      assert Matches(lower, v, query, o) <==> exists text | text in Aliases(o) :: lower(text) == query.text;
    }
  }

  /** The first listed offer that matches. */
  method Resolve(v: View, now: int, query: Query, lower: string -> string) returns (found: Option<Offer>)
    ensures exists listed :: IsListing(v, now, listed)
              && (found.None? ==> forall o | o in listed :: !Matches(lower, v, query, o))
              && (found.Some? ==> found.value in listed && Matches(lower, v, query, found.value))
  {
    hide IsListing, Matches;
    var listed := List(v, now);
    for i := 0 to |listed|
      invariant forall k | 0 <= k < i :: !Matches(lower, v, query, listed[k])
    {
      if Matches(lower, v, query, listed[i]) {
        return Some(listed[i]);
      }
    }
    found := None;
  }

  // ---- revocation reaches the catalog -------------------------------------------------------

  /** A snapshot that carries the overlay offers nothing on a revoked Device, and a
      revoked Device is offered nothing. */
  lemma RevokedIsNeverOffered(versions: Option<SnapshotStore.Versions>, revoked: set<string>, raw: Snapshot, s: Snapshot,
                              subject: string, now: int, c: Capability)
    requires SnapshotStore.Overlaid(versions, revoked, raw, s)
    requires c.device in revoked || (subject in revoked && subject != "")
    ensures !Offered(ViewOf(s, subject), now, c)
  {
    SnapshotStore.RevokedAreMarked(versions, revoked, raw, s);
    var id := if c.device in revoked then c.device else subject;
    FindIsThere(s.devices, id);
    if Find(s.devices, id).Some? {
      MarkedShowsRevoked(Find(s.devices, id).value);
    }
  }
}
