/** Local display choices: which monitors a session may span. */
module DesktopDisplay {
  import opened Common

  datatype Mode = Window | Single | All | Selected | OtherMode
  datatype Settings = Settings(mode: Mode, monitorIDs: seq<int>, layoutID: string)
  datatype Monitor = Monitor(id: int, left: int, top: int, right: int, bottom: int)
  datatype Layout = Layout(id: string, monitors: seq<Monitor>)

  predicate HexDigit(c: char) {
    '0' <= c <= '9' || 'a' <= c <= 'f' || 'A' <= c <= 'F'
  }

  predicate Hex(text: string) {
    |text| % 2 == 0 && forall i | 0 <= i < |text| :: HexDigit(text[i])
  }

  /** What Normalize accepts: a plain mode without extras, or one to sixteen distinct
      monitor IDs of a layout named by a 32-byte digest. */
  predicate Normal(d: Settings) {
    match d.mode
    case Selected =>
      && 1 <= |d.monitorIDs| <= 16
      && |d.layoutID| == 64 && Hex(d.layoutID)
      && NoDup(d.monitorIDs)
      && forall i | 0 <= i < |d.monitorIDs| :: 0 <= d.monitorIDs[i] <= 63
    case OtherMode => false
    case _ => d.monitorIDs == [] && d.layoutID == ""
  }

  method Normalize(value: Option<Settings>, fullScreen: bool) returns (d: Settings, ok: bool)
    ensures value.None? ==> ok && d == Settings(if fullScreen then Single else Window, [], "") && Normal(d)
    ensures value.Some? ==> d == value.value && (ok <==> Normal(d))
  {
    if value.None? {
      return Settings(if fullScreen then Single else Window, [], ""), true;
    }
    d := value.value;
    match d.mode {
      case Selected =>
        if |d.monitorIDs| == 0 || |d.monitorIDs| > 16 || |d.layoutID| != 64 || !Hex(d.layoutID) {
          return d, false;
        }
        var seen := {};
        for i := 0 to |d.monitorIDs|
          invariant seen == set k | 0 <= k < i :: d.monitorIDs[k]
          invariant forall k | 0 <= k < i :: 0 <= d.monitorIDs[k] <= 63
          invariant forall j, k | 0 <= j < k < i :: d.monitorIDs[j] != d.monitorIDs[k]
        {
          var id := d.monitorIDs[i];
          if id < 0 || id > 63 || id in seen {
            return d, false;
          }
          seen := seen + {id};
        }
        ok := true;
      case OtherMode => ok := false;
      case _ => ok := |d.monitorIDs| == 0 && d.layoutID == "";
    }
  }

  // ---- adjacency ------------------------------------------------------------------

  function Max(a: int, b: int): int { if a > b then a else b }
  function Min(a: int, b: int): int { if a < b then a else b }

  /** A common edge of positive length; touching at a corner is not enough. */
  predicate Adjacent(a: Monitor, b: Monitor) {
    var xOverlap := Max(a.left, b.left) < Min(a.right, b.right);
    var yOverlap := Max(a.top, b.top) < Min(a.bottom, b.bottom);
    (xOverlap && (a.top == b.bottom || a.bottom == b.top)) || (yOverlap && (a.left == b.right || a.right == b.left))
  }

  /** One monitor lies directly above or beside the other, and some column or row of pixels
      meets both. */
  ghost predicate Touch(a: Monitor, b: Monitor) {
    || ((a.bottom == b.top || b.bottom == a.top) && exists x :: Column(a, x) && Column(b, x))
    || ((a.right == b.left || b.right == a.left) && exists y :: Row(a, y) && Row(b, y))
  }

  predicate Column(m: Monitor, x: int) {
    m.left <= x < m.right
  }

  predicate Row(m: Monitor, y: int) {
    m.top <= y < m.bottom
  }

  lemma AdjacentMeansTouch(a: Monitor, b: Monitor)
    ensures Adjacent(a, b) <==> Touch(a, b)
  {
    var x, y := Max(a.left, b.left), Max(a.top, b.top);
    assert x < Min(a.right, b.right) ==> Column(a, x) && Column(b, x);
    assert y < Min(a.bottom, b.bottom) ==> Row(a, y) && Row(b, y);
  }

  /** The first monitor with this ID. */
  function Find(monitors: seq<Monitor>, id: int): Option<Monitor> {
    if monitors == [] then None
    else if monitors[0].id == id then Some(monitors[0])
    else Find(monitors[1..], id)
  }

  predicate Present(layout: Layout, ids: set<int>) {
    forall id | id in ids :: Find(layout.monitors, id).Some?
  }

  predicate Linked(layout: Layout, a: int, b: int) {
    && Find(layout.monitors, a).Some? && Find(layout.monitors, b).Some?
    && Adjacent(Find(layout.monitors, a).value, Find(layout.monitors, b).value)
  }

  /** A walk through chosen monitors along shared edges. */
  predicate Walk(layout: Layout, ids: set<int>, path: seq<int>) {
    && path != []
    && (forall k | 0 <= k < |path| :: path[k] in ids)
    && (forall k | 0 < k < |path| :: Linked(layout, path[k - 1], path[k]))
  }

  ghost predicate Reaches(layout: Layout, ids: set<int>, a: int, b: int) {
    exists path :: Walk(layout, ids, path) && path[0] == a && path[|path| - 1] == b
  }

  /** The chosen monitors form one connected graph. Nothing here depends on an order. */
  ghost predicate Connected(layout: Layout, ids: set<int>) {
    forall a, b | a in ids && b in ids :: Reaches(layout, ids, a, b)
  }

  ghost predicate Acceptable(d: Settings, layout: Layout) {
    && Normal(d)
    && (d.mode == Selected ==>
          && layout.id != "" && d.layoutID == layout.id
          && Present(layout, Elems(d.monitorIDs))
          && Connected(layout, Elems(d.monitorIDs)))
  }

  lemma LinkedSymmetric(layout: Layout, a: int, b: int)
    requires Linked(layout, a, b)
    ensures Linked(layout, b, a)
  {
  }

  lemma ReachesExtends(layout: Layout, ids: set<int>, a: int, b: int, c: int)
    requires Reaches(layout, ids, a, b) && Linked(layout, b, c) && c in ids
    ensures Reaches(layout, ids, a, c)
  {
    var path :| Walk(layout, ids, path) && path[0] == a && path[|path| - 1] == b;
    var longer := path + [c];
    assert Walk(layout, ids, longer);
  }

  lemma ReachesSymmetric(layout: Layout, ids: set<int>, a: int, b: int)
    requires Reaches(layout, ids, a, b)
    ensures Reaches(layout, ids, b, a)
  {
    var path :| Walk(layout, ids, path) && path[0] == a && path[|path| - 1] == b;
    var back := seq(|path|, i requires 0 <= i < |path| => path[|path| - 1 - i]);
    forall k | 0 < k < |back|
      ensures Linked(layout, back[k - 1], back[k])
    {
      LinkedSymmetric(layout, path[|path| - 1 - k], path[|path| - k]);
    }
    assert Walk(layout, ids, back);
  }

  lemma ReachesTransitive(layout: Layout, ids: set<int>, a: int, b: int, c: int)
    requires Reaches(layout, ids, a, b) && Reaches(layout, ids, b, c)
    ensures Reaches(layout, ids, a, c)
  {
    var p :| Walk(layout, ids, p) && p[0] == a && p[|p| - 1] == b;
    var q :| Walk(layout, ids, q) && q[0] == b && q[|q| - 1] == c;
    var joined := p + q[1..];
    forall k | 0 < k < |joined|
      ensures Linked(layout, joined[k - 1], joined[k])
    {
      if k >= |p| {
        assert joined[k] == q[k - |p| + 1];
        assert joined[k - 1] == q[k - |p|];
      }
    }
    assert Walk(layout, ids, joined);
  }

  lemma ConnectedFromOne(layout: Layout, ids: set<int>, root: int)
    requires root in ids && forall id | id in ids :: Reaches(layout, ids, root, id)
    ensures Connected(layout, ids)
  {
    forall a, b | a in ids && b in ids
      ensures Reaches(layout, ids, a, b)
    {
      ReachesSymmetric(layout, ids, root, a);
      ReachesTransitive(layout, ids, a, root, b);
    }
  }

  /** A set that contains the root and is closed under adjacency contains every walk from it. */
  lemma ClosedSetsHoldWalks(layout: Layout, ids: set<int>, closed: set<int>, root: int, id: int)
    requires root in closed && Reaches(layout, ids, root, id)
    requires forall a, b | a in closed && b in ids && Linked(layout, a, b) :: b in closed
    ensures id in closed
  {
    var path :| Walk(layout, ids, path) && path[0] == root && path[|path| - 1] == id;
    var k := 0;
    while k < |path| - 1
      invariant 0 <= k < |path| && path[k] in closed
    {
      assert Linked(layout, path[k], path[k + 1]);
      k := k + 1;
    }
  }

  // ---- the fixpoint ---------------------------------------------------------------

  /** The chosen monitors, in the order the IDs are listed. */
  predicate Chosen(layout: Layout, ids: seq<int>, monitors: seq<Monitor>) {
    |monitors| == |ids| && forall i | 0 <= i < |ids| :: Find(layout.monitors, ids[i]) == Some(monitors[i])
  }

  method Collect(layout: Layout, ids: seq<int>) returns (monitors: seq<Monitor>, ok: bool)
    ensures ok <==> Present(layout, Elems(ids))
    ensures ok ==> Chosen(layout, ids, monitors)
  {
    monitors := [];
    for i := 0 to |ids|
      invariant |monitors| == i && forall k | 0 <= k < i :: Find(layout.monitors, ids[k]) == Some(monitors[k])
    {
      var found := false;
      var j := 0;
      while j < |layout.monitors| && !found
        invariant 0 <= j <= |layout.monitors|
        invariant !found ==> |monitors| == i && Find(layout.monitors, ids[i]) == Find(layout.monitors[j..], ids[i])
        invariant found ==> |monitors| == i + 1 && Find(layout.monitors, ids[i]) == Some(monitors[i])
        invariant forall k | 0 <= k < i :: Find(layout.monitors, ids[k]) == Some(monitors[k])
        decreases |layout.monitors| - j, !found
      {
        if ids[i] == layout.monitors[j].id {
          monitors := monitors + [layout.monitors[j]];
          found := true;
        } else {
          j := j + 1;
        }
      }
      if !found {
        assert ids[i] in Elems(ids) && Find(layout.monitors, ids[i]).None?;
        return monitors, false;
      }
    }
    ok := true;
  }

  function Unvisited(visited: seq<bool>): set<int> {
    set i | 0 <= i < |visited| && !visited[i]
  }

  /** No visited monitor among the first `n` has an unvisited neighbour. */
  predicate ClosedUpTo(monitors: seq<Monitor>, visited: seq<bool>, n: nat)
    requires |visited| == |monitors|
  {
    forall i, j | 0 <= i < n && i < |monitors| && 0 <= j < |monitors| && visited[i] && Adjacent(monitors[i], monitors[j]) :: visited[j]
  }

  ghost predicate OnlyReached(layout: Layout, ids: seq<int>, visited: seq<bool>)
    requires |visited| == |ids| > 0
  {
    visited[0] && forall i | 0 <= i < |ids| && visited[i] :: Reaches(layout, Elems(ids), ids[0], ids[i])
  }

  /** `after` visits strictly more than `before`. */
  predicate Grew(before: seq<bool>, after: seq<bool>) {
    && Kept(before, after)
    && exists k | 0 <= k < |after| && k < |before| :: after[k] && !before[k]
  }

  predicate Kept(before: seq<bool>, after: seq<bool>) {
    |before| == |after| && forall k | 0 <= k < |before| && before[k] :: after[k]
  }

  /** The inner loop: visit every neighbour of monitor `i`. */
  method Spread(layout: Layout, ids: seq<int>, monitors: seq<Monitor>, visited: array<bool>, i: nat) returns (changed: bool)
    requires Chosen(layout, ids, monitors) && visited.Length == |ids| > 0
    requires OnlyReached(layout, ids, visited[..]) && i < |ids| && visited[i]
    modifies visited
    ensures OnlyReached(layout, ids, visited[..])
    ensures if changed then Grew(old(visited[..]), visited[..]) else visited[..] == old(visited[..])
    ensures !changed ==> forall j | 0 <= j < |ids| && Adjacent(monitors[i], monitors[j]) :: visited[j]
  {
    changed := false;
    for j := 0 to |monitors|
      invariant OnlyReached(layout, ids, visited[..]) && visited[i]
      invariant if changed then Grew(old(visited[..]), visited[..]) else visited[..] == old(visited[..])
      invariant !changed ==> forall k | 0 <= k < j && Adjacent(monitors[i], monitors[k]) :: visited[k]
    {
      if visited[j] {
        continue;
      }
      if Adjacent(monitors[i], monitors[j]) {
        ReachesExtends(layout, Elems(ids), ids[0], ids[i], ids[j]);
        ghost var before := visited[..];
        assert !old(visited[..])[j];
        visited[j] := true;
        assert visited[..] == before[j := true];
        changed := true;
      }
    }
  }

  /** One pass of the outer loop: it either visits more or shows closure. */
  method Pass(layout: Layout, ids: seq<int>, monitors: seq<Monitor>, visited: array<bool>) returns (changed: bool)
    requires Chosen(layout, ids, monitors) && visited.Length == |ids| > 0
    requires OnlyReached(layout, ids, visited[..])
    modifies visited
    ensures OnlyReached(layout, ids, visited[..])
    ensures if changed then Grew(old(visited[..]), visited[..]) else visited[..] == old(visited[..])
    ensures !changed ==> ClosedUpTo(monitors, visited[..], |monitors|)
  {
    changed := false;
    for i := 0 to |monitors|
      invariant OnlyReached(layout, ids, visited[..])
      invariant if changed then Grew(old(visited[..]), visited[..]) else visited[..] == old(visited[..])
      invariant !changed ==> ClosedUpTo(monitors, visited[..], i)
    {
      if !visited[i] {
        continue;
      }
      ghost var before := visited[..];
      var spread := Spread(layout, ids, monitors, visited, i);
      if spread && changed {
        GrewTwice(old(visited[..]), before, visited[..]);
      }
      changed := changed || spread;
    }
  }

  lemma GrewTwice(a: seq<bool>, b: seq<bool>, c: seq<bool>)
    requires Grew(a, b) && Grew(b, c)
    ensures Grew(a, c)
  {
    var k :| 0 <= k < |b| && k < |a| && b[k] && !a[k];
    assert c[k] && !a[k];
  }

  lemma GrowthShrinksUnvisited(before: seq<bool>, after: seq<bool>)
    requires Grew(before, after)
    ensures Unvisited(after) < Unvisited(before)
  {
    var k :| 0 <= k < |after| && k < |before| && after[k] && !before[k];
    assert k in Unvisited(before) && k !in Unvisited(after);
  }

  method ValidateSelection(d: Settings, layout: Layout) returns (ok: bool)
    ensures ok <==> Acceptable(d, layout)
  {
    var _, normal := Normalize(Some(d), true);
    if !normal {
      return false;
    }
    if d.mode != Selected {
      return true;
    }
    if layout.id == "" || d.layoutID != layout.id {
      return false;
    }
    var ids := d.monitorIDs;
    var monitors, present := Collect(layout, ids);
    if !present {
      return false;
    }
    var visited := new bool[|ids|](_ => false);
    visited[0] := true;
    SelfReaches(layout, Elems(ids), ids[0]);
    var changed := true;
    while changed
      invariant OnlyReached(layout, ids, visited[..])
      invariant !changed ==> ClosedUpTo(monitors, visited[..], |monitors|)
      decreases Unvisited(visited[..]), changed
    {
      ghost var before := visited[..];
      changed := Pass(layout, ids, monitors, visited);
      if changed {
        GrowthShrinksUnvisited(before, visited[..]);
      }
    }
    for i := 0 to visited.Length
      invariant forall k | 0 <= k < i :: visited[k]
    {
      if !visited[i] {
        UnvisitedMeansDisconnected(layout, ids, monitors, visited[..], i);
        return false;
      }
    }
    assert forall id | id in Elems(ids) :: exists i :: 0 <= i < |ids| && ids[i] == id;
    ConnectedFromOne(layout, Elems(ids), ids[0]);
    ok := true;
  }

  lemma SelfReaches(layout: Layout, ids: set<int>, id: int)
    requires id in ids
    ensures Reaches(layout, ids, id, id)
  {
    assert Walk(layout, ids, [id]);
  }

  lemma UnvisitedMeansDisconnected(layout: Layout, ids: seq<int>, monitors: seq<Monitor>, visited: seq<bool>, i: nat)
    requires Chosen(layout, ids, monitors) && NoDup(ids) && |visited| == |ids| > 0
    requires visited[0] && ClosedUpTo(monitors, visited, |monitors|) && i < |ids| && !visited[i]
    ensures !Connected(layout, Elems(ids))
  {
    var closed := set k | 0 <= k < |ids| && visited[k] :: ids[k];
    forall a, b | a in closed && b in Elems(ids) && Linked(layout, a, b)
      ensures b in closed
    {
      var k :| 0 <= k < |ids| && visited[k] && ids[k] == a;
      var l :| 0 <= l < |ids| && ids[l] == b;
      assert Adjacent(monitors[k], monitors[l]);
    }
    if Reaches(layout, Elems(ids), ids[0], ids[i]) {
      ClosedSetsHoldWalks(layout, Elems(ids), closed, ids[0], ids[i]);
    }
  }

  /** Listing the same monitors in another order never changes the answer. */
  lemma OrderDoesNotMatter(d: Settings, e: Settings, layout: Layout)
    requires d.mode == e.mode && d.layoutID == e.layoutID && multiset(d.monitorIDs) == multiset(e.monitorIDs)
    ensures Acceptable(d, layout) == Acceptable(e, layout)
  {
    SameMembers(d.monitorIDs, e.monitorIDs);
    if NoDup(d.monitorIDs) {
      NoDupPermuted(d.monitorIDs, e.monitorIDs);
    }
    if NoDup(e.monitorIDs) {
      NoDupPermuted(e.monitorIDs, d.monitorIDs);
    }
    assert Elems(d.monitorIDs) == Elems(e.monitorIDs);
    assert forall i | 0 <= i < |d.monitorIDs| :: d.monitorIDs[i] in e.monitorIDs;
    assert forall i | 0 <= i < |e.monitorIDs| :: e.monitorIDs[i] in d.monitorIDs;
    assert |multiset(d.monitorIDs)| == |multiset(e.monitorIDs)|;
    if |d.monitorIDs| == 0 {
      assert d.monitorIDs == e.monitorIDs;
    }
  }

  // ---- what an accepted choice looks like ---------------------------------------------

  predicate FirstWith(monitors: seq<Monitor>, id: int, m: Monitor) {
    exists k | 0 <= k < |monitors| :: monitors[k] == m && m.id == id && forall j | 0 <= j < k :: monitors[j].id != id
  }

  predicate IsThere(monitors: seq<Monitor>, id: int) {
    exists k | 0 <= k < |monitors| :: monitors[k].id == id
  }

  lemma {:induction false} FindIsFirst(monitors: seq<Monitor>, id: int)
    ensures forall m :: Find(monitors, id) == Some(m) <==> FirstWith(monitors, id, m)
    ensures Find(monitors, id).Some? <==> IsThere(monitors, id)
  {
    if monitors != [] {
      var rest := monitors[1..];
      FindIsFirst(rest, id);
      if monitors[0].id != id {
        forall m
          ensures FirstWith(monitors, id, m) <==> FirstWith(rest, id, m)
        {
          if FirstWith(rest, id, m) {
            var k :| 0 <= k < |rest| && rest[k] == m && m.id == id && forall j | 0 <= j < k :: rest[j].id != id;
            assert monitors[k + 1] == m;
          }
          if FirstWith(monitors, id, m) {
            var k :| 0 <= k < |monitors| && monitors[k] == m && m.id == id && forall j | 0 <= j < k :: monitors[j].id != id;
            assert rest[k - 1] == m && forall j | 0 <= j < k - 1 :: rest[j] == monitors[j + 1];
          }
        }
      }
    }
  }

  /** The monitors of two IDs touch. */
  ghost predicate TouchIn(monitors: seq<Monitor>, a: int, b: int) {
    exists m, n :: FirstWith(monitors, a, m) && FirstWith(monitors, b, n) && Touch(m, n)
  }

  /** However the chosen monitors are split in two, some monitor of one part touches one of
      the other. */
  ghost predicate Uncut(monitors: seq<Monitor>, ids: set<int>) {
    forall part: set<int> | part < ids && part != {} :: exists a, b :: a in part && b in ids - part && TouchIn(monitors, a, b)
  }

  lemma LinkedMeansTouch(layout: Layout, a: int, b: int)
    ensures Linked(layout, a, b) <==> TouchIn(layout.monitors, a, b)
  {
    hide FirstWith, Touch, Adjacent;
    FindIsFirst(layout.monitors, a);
    FindIsFirst(layout.monitors, b);
    forall m, n
      ensures Adjacent(m, n) <==> Touch(m, n)
    {
      AdjacentMeansTouch(m, n);
    }
  }

  lemma WalksCrossCuts(layout: Layout, ids: set<int>, part: set<int>, a: int, b: int) returns (c: int, d: int)
    requires Reaches(layout, ids, a, b) && a in part && b in ids - part
    ensures c in part && d in ids - part && Linked(layout, c, d)
  {
    var path :| Walk(layout, ids, path) && path[0] == a && path[|path| - 1] == b;
    var k := 0;
    while path[k + 1] in part
      invariant 0 <= k < |path| - 1 && path[k] in part
      decreases |path| - k
    {
      k := k + 1;
    }
    return path[k], path[k + 1];
  }

  lemma Member<T>(s: set<T>) returns (x: T)
    requires s != {}
    ensures x in s
  {
    x :| x in s;
  }

  lemma Beyond<T>(part: set<T>, whole: set<T>) returns (x: T)
    requires part < whole
    ensures x in whole - part
  {
    assert !(whole <= part);
    x :| x in whole && x !in part;
  }

  /** Connection by walks is the same as not falling apart. */
  lemma ConnectedMeansUncut(layout: Layout, ids: set<int>)
    ensures Connected(layout, ids) <==> Uncut(layout.monitors, ids)
  {
    hide Reaches, TouchIn;
    forall a, b
      ensures Linked(layout, a, b) <==> TouchIn(layout.monitors, a, b)
    {
      LinkedMeansTouch(layout, a, b);
    }
    hide Linked;
    if Connected(layout, ids) {
      forall part: set<int> | part < ids && part != {}
        ensures exists a, b :: a in part && b in ids - part && TouchIn(layout.monitors, a, b)
      {
        var a := Member(part);
        var b := Beyond(part, ids);
        var c, d := WalksCrossCuts(layout, ids, part, a, b);
      }
    }
    if Uncut(layout.monitors, ids) {
      forall a, b | a in ids && b in ids
        ensures Reaches(layout, ids, a, b)
      {
        var part := set id | id in ids && Reaches(layout, ids, a, id);
        SelfReaches(layout, ids, a);
        if part != ids {
          assert part < ids && a in part;
          var c, d :| c in part && d in ids - part && TouchIn(layout.monitors, c, d);
          ReachesExtends(layout, ids, a, c, d);
          assert false;
        }
      }
    }
  }

  /** A choice of single monitors is accepted exactly for one to sixteen different IDs from 0
      to 63, for this very layout, if each is there and they do not fall apart. */
  lemma AcceptedChoices(d: Settings, layout: Layout)
    requires d.mode == Selected
    ensures Acceptable(d, layout) <==>
            && 1 <= |d.monitorIDs| <= 16 && d.layoutID == layout.id
            && |layout.id| == 64 && (forall c | c in layout.id :: c in "0123456789abcdefABCDEF")
            && (forall i, j | 0 <= i < j < |d.monitorIDs| :: d.monitorIDs[i] != d.monitorIDs[j])
            && (forall id | id in d.monitorIDs :: 0 <= id < 64 && IsThere(layout.monitors, id))
            && Uncut(layout.monitors, set id | id in d.monitorIDs)
  {
    hide Connected, Uncut, Find, Hex, Elems, IsThere;
    ElemsAre(d.monitorIDs);
    ConnectedMeansUncut(layout, Elems(d.monitorIDs));
    forall id
      ensures Find(layout.monitors, id).Some? <==> IsThere(layout.monitors, id)
    {
      FindIsFirst(layout.monitors, id);
    }
    HexMeans(layout.id);
    forall i | 0 <= i < |d.monitorIDs|
      ensures d.monitorIDs[i] in d.monitorIDs
    {
    }
  }

  lemma ElemsAre(ids: seq<int>)
    ensures Elems(ids) == set id | id in ids
  {
  }

  lemma HexMeans(text: string)
    ensures Hex(text) <==> |text| % 2 == 0 && forall c | c in text :: c in "0123456789abcdefABCDEF"
  {
    hide HexDigit;
    HexDigits();
  }

  lemma HexDigits()
    ensures forall c :: HexDigit(c) <==> c in "0123456789abcdefABCDEF"
  {
    var digits := "0123456789abcdefABCDEF";
    forall c | HexDigit(c)
      ensures c in digits
    {
      var k := if c <= '9' then c as int - '0' as int else if c <= 'F' then c as int - 'A' as int + 16 else c as int - 'a' as int + 10;
      assert digits[k] == c;
    }
    forall c | c in digits
      ensures HexDigit(c)
    {
      var k :| 0 <= k < |digits| && digits[k] == c;
    }
  }
}
