/** Release history: the per-application query, the bulk load, and the dashboard built from the latest releases. */
module Releases {
  import opened Wrappers

  datatype Status =
    | Draft | Validating | Applying | WaitingReady | Verifying | Succeeded | Failed | RollingBack | RolledBack
    | Unrecognised(text: string)

  datatype Release = Release(id: nat, app: nat, sequence: nat, version: string, status: Status, createdAt: int)

  /** The release table: ids are unique, and so are the sequence numbers of one application. */
  ghost predicate Table(table: set<Release>) {
    && (forall a, b | a in table && b in table :: a.id == b.id ==> a == b)
    && (forall a, b | a in table && b in table :: a.app == b.app && a.sequence == b.sequence ==> a == b)
  }

  // ---------- queries, whose order the database fixes only as far as the clause says ----------

  ghost predicate Distinct(rows: seq<Release>) {
    forall i, j | 0 <= i < j < |rows| :: rows[i] != rows[j]
  }

  /** `rows` holds each wanted row of the table once. */
  ghost predicate Answers(rows: seq<Release>, table: set<Release>, wanted: Release -> bool) {
    Distinct(rows) && forall r :: r in rows <==> r in table && wanted(r)
  }

  ghost predicate LatestFirst(rows: seq<Release>) {
    forall i, j | 0 <= i < j < |rows| :: rows[i].sequence >= rows[j].sequence
  }

  ghost predicate ByApplication(rows: seq<Release>) {
    forall i, j | 0 <= i < j < |rows| ::
      rows[i].app < rows[j].app
      || (rows[i].app == rows[j].app
          && (rows[i].sequence > rows[j].sequence
              || (rows[i].sequence == rows[j].sequence && rows[i].id >= rows[j].id)))
  }

  /** An answer of ListReleases for one application. */
  ghost predicate History(rows: seq<Release>, table: set<Release>, app: nat) {
    Answers(rows, table, (r: Release) => r.app == app) && LatestFirst(rows)
  }

  /** An answer of the query behind ListReleasesByApplications. */
  ghost predicate Bulk(rows: seq<Release>, table: set<Release>, apps: seq<nat>) {
    Answers(rows, table, (r: Release) => r.app in apps) && LatestFirst(rows)
  }

  /** An answer of the dashboard's query. */
  ghost predicate Everything(rows: seq<Release>, table: set<Release>) {
    Answers(rows, table, (r: Release) => true) && ByApplication(rows)
  }

  // ---------- the bulk load ----------

  /** The rows of one application, in the order given. */
  function Only(rows: seq<Release>, app: nat): seq<Release> {
    if rows == [] then []
    else
      var last := rows[|rows| - 1];
      Only(rows[..|rows| - 1], app) + if last.app == app then [last] else []
  }

  function Of(groups: map<nat, seq<Release>>, app: nat): seq<Release> {
    if app in groups then groups[app] else []
  }

  method GroupByApplication(rows: seq<Release>) returns (groups: map<nat, seq<Release>>)
    ensures forall app :: Of(groups, app) == Only(rows, app)
    ensures forall app <- groups :: groups[app] != []
  {
    groups := map[];
    for i := 0 to |rows|
      invariant forall app :: Of(groups, app) == Only(rows[..i], app)
      invariant forall app <- groups :: groups[app] != []
    {
      assert rows[..i + 1][..i] == rows[..i];
      var r := rows[i];
      groups := groups[r.app := Of(groups, r.app) + [r]];
    }
    assert rows[..|rows|] == rows;
  }

  /** ListReleasesByApplications over an answer of its query; without ids there is no query. */
  method ListReleasesByApplications(apps: seq<nat>, rows: seq<Release>, ghost table: set<Release>)
      returns (groups: map<nat, seq<Release>>)
    requires Table(table) && Bulk(rows, table, apps)
    ensures forall app, single | app in apps && History(single, table, app) :: Of(groups, app) == single
    ensures forall app <- groups :: app in apps && groups[app] != []
  {
    if |apps| == 0 {
      return map[];
    }
    groups := GroupByApplication(rows);
    forall app, single | app in apps && History(single, table, app)
      ensures Of(groups, app) == single
    {
      BulkIsPerApplication(table, apps, rows, app, single);
    }
    forall app | app in groups
      ensures app in apps
    {
      OnlyIsExact(rows, app, groups[app][0]);
    }
  }

  ghost predicate Strict(rows: seq<Release>) {
    forall i, j | 0 <= i < j < |rows| :: rows[i].sequence > rows[j].sequence
  }

  lemma {:induction false} OnlyIsExact(rows: seq<Release>, app: nat, r: Release)
    ensures r in Only(rows, app) <==> r in rows && r.app == app
  {
    if rows != [] {
      OnlyIsExact(rows[..|rows| - 1], app, r);
      assert rows == rows[..|rows| - 1] + [rows[|rows| - 1]];
    }
  }

  lemma {:induction false} OnlyIsStrict(table: set<Release>, rows: seq<Release>, app: nat)
    requires Table(table) && Distinct(rows) && LatestFirst(rows) && forall r <- rows :: r in table
    ensures Strict(Only(rows, app))
  {
    if rows != [] {
      var before, last := rows[..|rows| - 1], rows[|rows| - 1];
      OnlyIsStrict(table, before, app);
      forall i | 0 <= i < |Only(before, app)| && last.app == app
        ensures Only(before, app)[i].sequence > last.sequence
      {
        var r := Only(before, app)[i];
        OnlyIsExact(before, app, r);
        var k :| 0 <= k < |before| && before[k] == r;
        assert rows[k] == r && rows[k] != rows[|rows| - 1];
        assert rows[k] in table && last in table;
      }
    }
  }

  /** Two strictly descending lists of the same rows are one list. */
  lemma {:induction false} StrictIsUnique(a: seq<Release>, b: seq<Release>)
    requires Strict(a) && Strict(b) && forall r :: r in a <==> r in b
    ensures a == b
  {
    assert (a != [] ==> a[0] in a) && (b != [] ==> b[0] in b);
    if a != [] {
      SameLast(a, b);
      WithoutLast(a);
      WithoutLast(b);
      var a', b' := a[..|a| - 1], b[..|b| - 1];
      forall r
        ensures r in a' <==> r in b'
      {
        assert (r in a <==> r in b) && (r in a' ==> r in a) && (r in b' ==> r in b);
      }
      StrictIsUnique(a', b');
      assert a == a[..|a| - 1] + [a[|a| - 1]] && b == b[..|b| - 1] + [b[|b| - 1]];
    }
  }

  lemma LastIsLeast(rows: seq<Release>, r: Release)
    requires Strict(rows) && r in rows
    ensures rows[|rows| - 1].sequence <= r.sequence
  {
    var i :| 0 <= i < |rows| && rows[i] == r;
  }

  lemma SameLast(a: seq<Release>, b: seq<Release>)
    requires Strict(a) && Strict(b) && a != [] && b != [] && forall r :: r in a <==> r in b
    ensures a[|a| - 1] == b[|b| - 1]
  {
    var x, y := a[|a| - 1], b[|b| - 1];
    assert x in b && y in a;
    LastIsLeast(a, y);
    LastIsLeast(b, x);
    var i :| 0 <= i < |a| && a[i] == y;
    if i < |a| - 1 {
      assert a[i].sequence > a[|a| - 1].sequence;
    }
  }

  lemma WithoutLast(rows: seq<Release>)
    requires Strict(rows) && rows != []
    ensures forall r :: r in rows[..|rows| - 1] <==> r in rows && r != rows[|rows| - 1]
  {
    assert rows == rows[..|rows| - 1] + [rows[|rows| - 1]];
  }

  /** The bulk load gives every requested application exactly the list its own query gives. */
  lemma BulkIsPerApplication(table: set<Release>, apps: seq<nat>, bulk: seq<Release>, app: nat, single: seq<Release>)
    requires Table(table) && Bulk(bulk, table, apps) && app in apps && History(single, table, app)
    ensures Only(bulk, app) == single
  {
    OnlyIsStrict(table, bulk, app);
    assert Strict(single) by {
      forall i, j | 0 <= i < j < |single|
        ensures single[i].sequence > single[j].sequence
      {
        assert single[i] in table && single[j] in table;
      }
    }
    forall r
      ensures r in Only(bulk, app) <==> r in single
    {
      OnlyIsExact(bulk, app, r);
    }
    StrictIsUnique(Only(bulk, app), single);
  }

  // ---------- the latest release of each application ----------

  ghost predicate IsLatest(table: set<Release>, r: Release) {
    r in table && forall s <- table :: s.app == r.app ==> s.sequence <= r.sequence
  }

  /** The first release of each application in the rows. */
  ghost predicate Firsts(rows: seq<Release>, latest: map<nat, Release>) {
    forall app :: (if app in latest then Only(rows, app) != [] && latest[app] == Only(rows, app)[0]
        else Only(rows, app) == [])
  }

  method LatestByApplication(rows: seq<Release>) returns (latest: map<nat, Release>)
    ensures Firsts(rows, latest)
  {
    latest := map[];
    for i := 0 to |rows|
      invariant Firsts(rows[..i], latest)
    {
      assert rows[..i + 1][..i] == rows[..i];
      var r := rows[i];
      if r.app !in latest {
        latest := latest[r.app := r];
      }
    }
    assert rows[..|rows|] == rows;
  }

  lemma {:induction false} OnlyKeepsOrder(rows: seq<Release>, app: nat)
    requires ByApplication(rows)
    ensures LatestFirst(Only(rows, app))
  {
    if rows != [] {
      var before, last := rows[..|rows| - 1], rows[|rows| - 1];
      OnlyKeepsOrder(before, app);
      forall i | 0 <= i < |Only(before, app)| && last.app == app
        ensures Only(before, app)[i].sequence >= last.sequence
      {
        var r := Only(before, app)[i];
        OnlyIsExact(before, app, r);
        var k :| 0 <= k < |before| && before[k] == r;
        assert rows[k] == r;
      }
    }
  }

  /** The dashboard's entry for an application is its release with the highest sequence number. */
  lemma FirstsAreLatest(table: set<Release>, rows: seq<Release>, latest: map<nat, Release>)
    requires Table(table) && Everything(rows, table) && Firsts(rows, latest)
    ensures forall app <- latest :: latest[app].app == app && IsLatest(table, latest[app])
    ensures forall r <- table :: r.app in latest
  {
    forall app | app in latest
      ensures latest[app].app == app && IsLatest(table, latest[app])
    {
      var mine := Only(rows, app);
      OnlyIsExact(rows, app, latest[app]);
      OnlyKeepsOrder(rows, app);
      forall s | s in table && s.app == app
        ensures s.sequence <= latest[app].sequence
      {
        OnlyIsExact(rows, app, s);
        var k :| 0 <= k < |mine| && mine[k] == s;
      }
    }
    forall r | r in table
      ensures r.app in latest
    {
      OnlyIsExact(rows, r.app, r);
    }
  }

  /** The dashboard's entry, the head of the per-application query and the head of the bulk load are one release. */
  lemma LatestCoincide(table: set<Release>, rows: seq<Release>, latest: map<nat, Release>, apps: seq<nat>,
      bulk: seq<Release>, app: nat, single: seq<Release>)
    requires Table(table) && Everything(rows, table) && Firsts(rows, latest)
    requires Bulk(bulk, table, apps) && app in apps && History(single, table, app)
    ensures single == [] <==> app !in latest
    ensures Only(bulk, app) == single
    ensures single != [] ==> single[0] == latest[app]
  {
    BulkIsPerApplication(table, apps, bulk, app, single);
    FirstsAreLatest(table, rows, latest);
    if single != [] {
      assert single[0] in single;
      assert latest[app] in single;
      assert single[0].sequence >= latest[app].sequence;
    }
  }

  // ---------- the dashboard ----------

  datatype App = App(id: nat, name: string)

  ghost predicate UniqueIds(apps: seq<App>) {
    forall i, j | 0 <= i < j < |apps| :: apps[i].id != apps[j].id
  }

  function Ids(apps: seq<App>): set<nat> {
    if apps == [] then {} else Ids(apps[..|apps| - 1]) + {apps[|apps| - 1].id}
  }

  lemma {:induction false} IdsAreExact(apps: seq<App>, id: nat)
    ensures id in Ids(apps) <==> exists i | 0 <= i < |apps| :: apps[i].id == id
  {
    if apps != [] {
      IdsAreExact(apps[..|apps| - 1], id);
    }
  }

  datatype Kind = Success | Releasing | Failure | Unfinished | Ignored

  function KindOf(status: Status): Kind {
    match status
    case Succeeded => Success
    case Validating => Releasing
    case Applying => Releasing
    case WaitingReady => Releasing
    case Verifying => Releasing
    case RollingBack => Releasing
    case Failed => Failure
    case RolledBack => Failure
    case Draft => Unfinished
    case Unrecognised(_) => Ignored
  }

  datatype Shown = Shown(name: string, version: string, status: Status, createdAt: int)

  datatype Summary = Summary(total: nat, succeeded: nat, releasing: nat, failed: nat, unreleased: int,
      newest: Option<Shown>)

  predicate Newer(a: Release, b: Release) {
    a.createdAt > b.createdAt || (a.createdAt == b.createdAt && a.id > b.id)
  }

  /** The applications whose latest release is of one kind. */
  function OfKind(latest: map<nat, Release>, kind: Kind): set<nat> {
    set app <- latest | KindOf(latest[app].status) == kind
  }

  ghost predicate IsNewest(latest: map<nat, Release>, r: Release) {
    r in latest.Values && forall s <- latest.Values :: !Newer(s, r)
  }

  function ShownAs(names: map<nat, string>, r: Release): Shown {
    Shown(if r.app in names then names[r.app] else "", r.version, r.status, r.createdAt)
  }

  predicate Shows(names: map<nat, string>, r: Release, shown: Shown) {
    && shown.version == r.version && shown.status == r.status && shown.createdAt == r.createdAt
    && shown.name == if r.app in names then names[r.app] else ""
  }

  /** What a summary of the latest releases says, without naming the order in which they were visited. */
  ghost predicate Summarizes(apps: seq<App>, names: map<nat, string>, latest: map<nat, Release>, s: Summary) {
    && s.total == |apps|
    && s.succeeded == |OfKind(latest, Success)|
    && s.releasing == |OfKind(latest, Releasing)|
    && s.failed == |OfKind(latest, Failure)|
    && s.unreleased == |apps| - |latest|
    && (s.newest == None <==> latest == map[])
    && (s.newest.Some? ==> exists r :: IsNewest(latest, r) && Shows(names, r, s.newest.value))
  }

  predicate InProgress(status: Status) {
    || status == Validating || status == Applying || status == WaitingReady || status == Verifying
    || status == RollingBack
  }

  lemma KindIff(status: Status)
    ensures KindOf(status) == Success <==> status == Succeeded
    ensures KindOf(status) == Releasing <==> InProgress(status)
    ensures KindOf(status) == Failure <==> status == Failed || status == RolledBack
    ensures KindOf(status) == Unfinished <==> status == Draft
    ensures KindOf(status) == Ignored <==> status.Unrecognised?
  {
  }

  /** The counters, by the statuses themselves. */
  lemma CountersByStatus(apps: seq<App>, names: map<nat, string>, latest: map<nat, Release>, s: Summary)
    requires Summarizes(apps, names, latest, s)
    ensures s.succeeded == |set app <- latest | latest[app].status == Succeeded|
    ensures s.releasing == |set app <- latest | InProgress(latest[app].status)|
    ensures s.failed == |set app <- latest | latest[app].status == Failed || latest[app].status == RolledBack|
  {
    forall app | app in latest
      ensures KindOf(latest[app].status) == Success <==> latest[app].status == Succeeded
      ensures KindOf(latest[app].status) == Releasing <==> InProgress(latest[app].status)
      ensures KindOf(latest[app].status) == Failure <==>
                latest[app].status == Failed || latest[app].status == RolledBack
    {
      KindIff(latest[app].status);
    }
    assert OfKind(latest, Success) == set app <- latest | latest[app].status == Succeeded;
    assert OfKind(latest, Releasing) == set app <- latest | InProgress(latest[app].status);
    assert OfKind(latest, Failure) ==
        set app <- latest | latest[app].status == Failed || latest[app].status == RolledBack;
  }

  /** The newest release was created last, and of those created at that moment it has the highest id. */
  lemma NewestIsLast(latest: map<nat, Release>, r: Release, other: Release)
    requires IsNewest(latest, r) && other in latest.Values
    ensures other.createdAt < r.createdAt || (other.createdAt == r.createdAt && other.id <= r.id)
  {
    assert !Newer(other, r);
  }

  method NamesOf(apps: seq<App>) returns (names: map<nat, string>)
    ensures names.Keys == Ids(apps)
    ensures UniqueIds(apps) ==> forall a <- apps :: a.id in names && names[a.id] == a.name
  {
    names := map[];
    for i := 0 to |apps|
      invariant names.Keys == Ids(apps[..i])
      invariant UniqueIds(apps) ==> forall k | 0 <= k < i :: apps[k].id in names && names[apps[k].id] == apps[k].name
    {
      assert apps[..i + 1][..i] == apps[..i];
      names := names[apps[i].id := apps[i].name];
    }
    assert apps[..|apps|] == apps;
  }

  function Visited(latest: map<nat, Release>, order: seq<nat>, kind: Kind): set<nat> {
    set app <- order | app in latest && KindOf(latest[app].status) == kind
  }

  lemma VisitedGrows(latest: map<nat, Release>, order: seq<nat>, app: nat, kind: Kind)
    requires app !in order && app in latest
    ensures |Visited(latest, order + [app], kind)| ==
              |Visited(latest, order, kind)| + if KindOf(latest[app].status) == kind then 1 else 0
  {
    if KindOf(latest[app].status) == kind {
      assert Visited(latest, order + [app], kind) == Visited(latest, order, kind) + {app};
    } else {
      assert Visited(latest, order + [app], kind) == Visited(latest, order, kind);
    }
  }

  /** The counting loop, for whatever order the map iteration takes. */
  method CountKinds(latest: map<nat, Release>, order: seq<nat>) returns (succeeded: nat, releasing: nat, failed: nat)
    requires forall i, j | 0 <= i < j < |order| :: order[i] != order[j]
    requires forall app :: app in order <==> app in latest
    ensures succeeded == |OfKind(latest, Success)| && releasing == |OfKind(latest, Releasing)|
            && failed == |OfKind(latest, Failure)|
  {
    succeeded, releasing, failed := 0, 0, 0;
    for i := 0 to |order|
      invariant succeeded == |Visited(latest, order[..i], Success)|
      invariant releasing == |Visited(latest, order[..i], Releasing)|
      invariant failed == |Visited(latest, order[..i], Failure)|
    {
      assert order[..i + 1] == order[..i] + [order[i]];
      assert order[i] !in order[..i];
      VisitedGrows(latest, order[..i], order[i], Success);
      VisitedGrows(latest, order[..i], order[i], Releasing);
      VisitedGrows(latest, order[..i], order[i], Failure);
      match KindOf(latest[order[i]].status) {
        case Success => succeeded := succeeded + 1;
        case Releasing => releasing := releasing + 1;
        case Failure => failed := failed + 1;
        case _ =>
      }
    }
    assert order[..|order|] == order;
    assert forall kind :: Visited(latest, order, kind) == OfKind(latest, kind);
  }

  method FindNewest(latest: map<nat, Release>, order: seq<nat>) returns (newest: Option<Release>)
    requires forall app :: app in order <==> app in latest
    ensures newest == None <==> latest == map[]
    ensures newest.Some? ==> IsNewest(latest, newest.value)
  {
    newest := None;
    for i := 0 to |order|
      invariant newest == None <==> i == 0
      invariant newest.Some? ==> newest.value in latest.Values
      invariant newest.Some? ==> forall k | 0 <= k < i :: !Newer(latest[order[k]], newest.value)
    {
      assert order[i] in order;
      var r := latest[order[i]];
      if newest.None? || Newer(r, newest.value) {
        newest := Some(r);
      }
    }
    if |order| > 0 {
      assert order[0] in latest;
      forall s | s in latest.Values
        ensures !Newer(s, newest.value)
      {
        var app :| app in latest && latest[app] == s;
        assert app in order;
      }
    } else {
      assert latest.Keys == {};
    }
  }

  method Dashboard(apps: seq<App>, rows: seq<Release>, order: seq<nat>)
      returns (names: map<nat, string>, latest: map<nat, Release>, s: Summary)
    requires forall i, j | 0 <= i < j < |order| :: order[i] != order[j]
    requires forall app :: app in order <==> Only(rows, app) != []
    ensures Firsts(rows, latest) && names.Keys == Ids(apps)
    ensures UniqueIds(apps) ==> forall a <- apps :: a.id in names && names[a.id] == a.name
    ensures Summarizes(apps, names, latest, s)
  {
    names := NamesOf(apps);
    latest := LatestByApplication(rows);
    var succeeded, releasing, failed := CountKinds(latest, order);
    var newest := FindNewest(latest, order);
    s := Summary(|apps|, succeeded, releasing, failed, |apps| - |latest|,
                 if newest.Some? then Some(ShownAs(names, newest.value)) else None);
  }

  /** Whatever order the map is visited in, the summary is the same. */
  lemma SummaryIsUnique(table: set<Release>, apps: seq<App>, names: map<nat, string>, latest: map<nat, Release>,
      s: Summary, t: Summary)
    requires Table(table) && forall r <- latest.Values :: r in table
    requires Summarizes(apps, names, latest, s) && Summarizes(apps, names, latest, t)
    ensures s == t
  {
    if s.newest.Some? {
      var r :| IsNewest(latest, r) && Shows(names, r, s.newest.value);
      var q :| IsNewest(latest, q) && Shows(names, q, t.newest.value);
      assert !Newer(r, q) && !Newer(q, r);
      assert r.id == q.id;
    }
  }

  // ---------- the counts ----------

  lemma {:induction false} DistinctIds(apps: seq<App>)
    requires UniqueIds(apps)
    ensures |Ids(apps)| == |apps|
  {
    if apps != [] {
      var before, last := apps[..|apps| - 1], apps[|apps| - 1];
      DistinctIds(before);
      IdsAreExact(before, last.id);
    }
  }

  lemma KindsPartition(latest: map<nat, Release>)
    ensures |latest| == |OfKind(latest, Success)| + |OfKind(latest, Releasing)| + |OfKind(latest, Failure)|
                        + |OfKind(latest, Unfinished)| + |OfKind(latest, Ignored)|
  {
    var a, b, c, d, e := OfKind(latest, Success), OfKind(latest, Releasing), OfKind(latest, Failure),
        OfKind(latest, Unfinished), OfKind(latest, Ignored);
    var ab := a + b;
    assert |ab| == |a| + |b|;
    var cd := c + d;
    assert |cd| == |c| + |d|;
    var cde := cd + e;
    assert |cde| == |cd| + |e|;
    assert |ab + cde| == |ab| + |cde|;
    assert latest.Keys == ab + cde;
  }

  /** The applications that exist and have no release, and those that have releases and do not exist. */
  function Unreleased(apps: seq<App>, latest: map<nat, Release>): set<nat> {
    Ids(apps) - latest.Keys
  }

  function Orphans(apps: seq<App>, latest: map<nat, Release>): set<nat> {
    latest.Keys - Ids(apps)
  }

  lemma DifferenceCounts(a: set<nat>, b: set<nat>)
    ensures |a| - |b| == |a - b| - |b - a|
  {
    assert a == (a - b) + a * b && b == (b - a) + a * b;
    assert |a| == |a - b| + |a * b|;
    assert |b| == |b - a| + |a * b|;
  }

  /**
   * The four counters, the drafts and the unrecognised statuses always add up to the total; and the unreleased
   * counter is the number of applications without a release less the number of missing ones that have releases.
   */
  lemma CountsAddUp(apps: seq<App>, names: map<nat, string>, latest: map<nat, Release>, s: Summary)
    requires UniqueIds(apps)
    requires Summarizes(apps, names, latest, s)
    ensures s.succeeded + s.releasing + s.failed + s.unreleased + |OfKind(latest, Unfinished)|
            + |OfKind(latest, Ignored)| == s.total
    ensures s.unreleased == |Unreleased(apps, latest)| - |Orphans(apps, latest)|
  {
    KindsPartition(latest);
    DistinctIds(apps);
    DifferenceCounts(Ids(apps), latest.Keys);
    assert |latest| == |latest.Keys|;
  }

  /** So the unreleased counter is right exactly when every release belongs to an application that exists. */
  lemma UnreleasedIsRightIff(apps: seq<App>, names: map<nat, string>, latest: map<nat, Release>, s: Summary)
    requires UniqueIds(apps)
    requires Summarizes(apps, names, latest, s)
    ensures s.unreleased == |Unreleased(apps, latest)| <==> forall app <- latest :: exists a <- apps :: a.id == app
  {
    CountsAddUp(apps, names, latest, s);
    EmptyIff(Orphans(apps, latest));
    forall app | app in latest
      ensures app in Orphans(apps, latest) <==> !exists a <- apps :: a.id == app
    {
      IdsAreExact(apps, app);
    }
  }

  /** A release whose application is gone makes the counter wrong: here it is -1. */
  lemma OrphanMiscounts()
    ensures exists latest: map<nat, Release>, s: Summary :: Summarizes([], map[], latest, s) && s.unreleased == -1
  {
    var r := Release(1, 1, 1, "v1", Succeeded, 0);
    var latest := map[1 := r];
    var s := Summary(0, 1, 0, 0, -1, Some(ShownAs(map[], r)));
    assert OfKind(latest, Success) == {1} && OfKind(latest, Releasing) == {} && OfKind(latest, Failure) == {};
    assert |latest.Keys| == 1;
    assert IsNewest(latest, r);
    assert Summarizes([], map[], latest, s);
  }

  lemma EmptyIff(s: set<nat>)
    ensures |s| == 0 <==> forall x :: x !in s
  {
    if s != {} {
      var x :| x in s;
    }
  }

  /** With recognised statuses only, no term is missing from the dashboard but the drafts. */
  lemma RecognisedCountsAddUp(apps: seq<App>, names: map<nat, string>, latest: map<nat, Release>, s: Summary)
    requires UniqueIds(apps)
    requires Summarizes(apps, names, latest, s)
    ensures s.succeeded + s.releasing + s.failed + s.unreleased + |OfKind(latest, Unfinished)| == s.total
            <==> forall app <- latest :: !latest[app].status.Unrecognised?
  {
    CountsAddUp(apps, names, latest, s);
    EmptyIff(OfKind(latest, Ignored));
    assert forall app <- latest :: app in OfKind(latest, Ignored) <==> latest[app].status.Unrecognised?;
  }
}
