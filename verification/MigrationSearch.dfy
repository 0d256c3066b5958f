/**
 * Choosing and running save migrations (packages/core/src/game-state-save.ts): a breadth-first search
 * over any migration graph, and the loop that runs the chosen chain.
 */
module MigrationSearch {
  import opened Wrappers
  import opened Counting

  /** A registered migration of saves of type `V`; it may fail. */
  datatype Migration<!V> = Migration(fromVersion: int, toVersion: int, migrate: V -> Result<V, LoadError>)

  datatype LoadError =
    | UnknownVersion
    | NoMigrationPath(fromVersion: int, toVersion: int)
    | UnexpectedVersion(fromVersion: int, toVersion: int)
    | Rejected(message: string)

  /** A chain of registered migrations from one version to another. */
  ghost predicate IsPath<V(!new)>(migrations: seq<Migration<V>>, start: int, goal: int, path: seq<Migration<V>>)
    decreases |path|
  {
    if path == [] then start == goal
    else
      var last := path[|path| - 1];
      last in migrations && last.toVersion == goal && IsPath(migrations, start, last.fromVersion, path[..|path| - 1])
  }

  ghost predicate IsShortest<V(!new)>(migrations: seq<Migration<V>>, start: int, goal: int, path: seq<Migration<V>>) {
    && IsPath(migrations, start, goal, path)
    && forall other | IsPath(migrations, start, goal, other) :: |path| <= |other|
  }

  ghost predicate Reachable<V(!new)>(migrations: seq<Migration<V>>, start: int, goal: int) {
    exists path :: IsPath(migrations, start, goal, path)
  }

  lemma PathExtends<V(!new)>(migrations: seq<Migration<V>>, start: int, path: seq<Migration<V>>, m: Migration<V>)
    requires m in migrations && IsPath(migrations, start, m.fromVersion, path)
    ensures IsPath(migrations, start, m.toVersion, path + [m])
  {
    assert (path + [m])[..|path|] == path;
  }

  /** The migrations that leave one version, in registration order. */
  function Leaving<V>(migrations: seq<Migration<V>>, version: int): seq<Migration<V>> {
    if migrations == [] then []
    else
      var rest := Leaving(migrations[..|migrations| - 1], version);
      if migrations[|migrations| - 1].fromVersion == version then rest + [migrations[|migrations| - 1]] else rest
  }

  lemma {:induction false} LeavingIsAll<V(!new)>(migrations: seq<Migration<V>>, version: int)
    ensures forall m :: m in Leaving(migrations, version) <==> m in migrations && m.fromVersion == version
  {
    if migrations != [] {
      var n := |migrations| - 1;
      LeavingIsAll(migrations[..n], version);
      assert migrations == migrations[..n] + [migrations[n]];
    }
  }

  lemma LeavingMember<V(!new)>(migrations: seq<Migration<V>>, version: int, i: nat)
    requires i < |Leaving(migrations, version)|
    ensures var m := Leaving(migrations, version)[i]; m in migrations && m.fromVersion == version
  {
    LeavingIsAll(migrations, version);
    assert Leaving(migrations, version)[i] in Leaving(migrations, version);
  }

  function Successors<V>(index: map<int, seq<Migration<V>>>, version: int): seq<Migration<V>> {
    if version in index then index[version] else []
  }

  /** Groups the migrations by the version they leave. */
  method BuildMigrationIndex<V(!new)>(migrations: seq<Migration<V>>) returns (index: map<int, seq<Migration<V>>>)
    ensures forall v :: Successors(index, v) == Leaving(migrations, v)
  {
    index := map[];
    for i := 0 to |migrations|
      invariant forall v :: Successors(index, v) == Leaving(migrations[..i], v)
    {
      var m := migrations[i];
      assert migrations[..i + 1][..i] == migrations[..i];
      if m.fromVersion in index {
        index := index[m.fromVersion := index[m.fromVersion] + [m]];
      } else {
        index := index[m.fromVersion := [m]];
      }
    }
    assert migrations[..|migrations|] == migrations;
  }

  /** A version to expand, and the chain that led to it. */
  datatype Node<!V> = Node(version: int, path: seq<Migration<V>>)

  /**
   * What the search knows: `dist` gives the length of the chain found for each visited version, and every
   * visited version outside `open` has all its successors visited, one hop further at most.
   */
  ghost predicate Closed<V(!new)>(migrations: seq<Migration<V>>, start: int, dist: map<int, nat>, open: set<int>) {
    && start in dist && dist[start] == 0
    && forall m | m in migrations && m.fromVersion in dist && m.fromVersion !in open ::
         m.toVersion in dist && dist[m.toVersion] <= dist[m.fromVersion] + 1
  }

  /** A version that a chain reaches was found at no greater length, unless a shorter chain is still open. */
  lemma {:induction false} ReachedOrOpen<V(!new)>(migrations: seq<Migration<V>>, start: int, dist: map<int, nat>,
                                                  open: set<int>, goal: int, path: seq<Migration<V>>)
    requires Closed(migrations, start, dist, open) && IsPath(migrations, start, goal, path)
    ensures || (goal in dist && dist[goal] <= |path|)
            || exists v :: v in open && v in dist && dist[v] < |path|
    decreases |path|
  {
    if path != [] {
      var last := path[|path| - 1];
      ReachedOrOpen(migrations, start, dist, open, last.fromVersion, path[..|path| - 1]);
    }
  }

  /** Nodes wait in order of chain length, and the lengths differ by one at most. */
  ghost predicate InOrder<V(!new)>(queue: seq<Node<V>>, level: nat) {
    && (forall i | 0 <= i < |queue| :: level <= |queue[i].path| <= level + 1)
    && forall i, j | 0 <= i < j < |queue| :: |queue[i].path| <= |queue[j].path|
  }

  ghost predicate NodesOk<V(!new)>(migrations: seq<Migration<V>>, start: int, dist: map<int, nat>,
                                   queue: seq<Node<V>>)
  {
    forall i | 0 <= i < |queue| ::
      && IsPath(migrations, start, queue[i].version, queue[i].path)
      && queue[i].version in dist && dist[queue[i].version] == |queue[i].path|
  }

  ghost function VersionsOf<V>(queue: seq<Node<V>>): set<int> {
    set i | 0 <= i < |queue| :: queue[i].version
  }

  ghost function Targets<V(!new)>(migrations: seq<Migration<V>>): set<int> {
    set i | 0 <= i < |migrations| :: migrations[i].toVersion
  }

  /** A chain one longer than the shortest open one is a shortest chain to a version not yet visited. */
  lemma NextIsShortest<V(!new)>(migrations: seq<Migration<V>>, start: int, dist: map<int, nat>, open: set<int>,
                                path: seq<Migration<V>>, goal: int, level: nat)
    requires Closed(migrations, start, dist, open) && goal !in dist && IsPath(migrations, start, goal, path)
    requires |path| == level + 1 && forall v | v in open && v in dist :: level <= dist[v]
    ensures IsShortest(migrations, start, goal, path)
  {
    forall other | IsPath(migrations, start, goal, other)
      ensures |path| <= |other|
    {
      ReachedOrOpen(migrations, start, dist, open, goal, other);
    }
  }

  /** Between and during expansions, with the versions in `open` not fully expanded. */
  ghost predicate Searching<V(!new)>(migrations: seq<Migration<V>>, start: int, goal: int, dist: map<int, nat>,
                                     queue: seq<Node<V>>, open: set<int>, level: nat)
  {
    && goal !in dist && dist.Keys <= Targets(migrations) + {start}
    && NodesOk(migrations, start, dist, queue) && InOrder(queue, level)
    && Closed(migrations, start, dist, open)
    && (forall v | v in dist :: dist[v] <= level + 1)
    && forall v | v in open && v in dist :: level <= dist[v]
  }

  lemma Visit<V(!new)>(migrations: seq<Migration<V>>, start: int, goal: int, dist: map<int, nat>, queue: seq<Node<V>>,
                       open: set<int>, level: nat, m: Migration<V>, path: seq<Migration<V>>)
    requires Searching(migrations, start, goal, dist, queue, open, level) && m in migrations
    requires m.toVersion !in dist && m.toVersion != goal
    requires IsPath(migrations, start, m.toVersion, path) && |path| == level + 1
    ensures Searching(migrations, start, goal, dist[m.toVersion := level + 1], queue + [Node(m.toVersion, path)],
                      open + {m.toVersion}, level)
    ensures VersionsOf(queue + [Node(m.toVersion, path)]) == VersionsOf(queue) + {m.toVersion}
  {
    var queue' := queue + [Node(m.toVersion, path)];
    assert queue'[|queue|].version == m.toVersion;
    forall v | v in VersionsOf(queue) + {m.toVersion}
      ensures v in VersionsOf(queue')
    {
      if v in VersionsOf(queue) {
        var i :| 0 <= i < |queue| && queue[i].version == v;
        assert queue'[i].version == v;
      }
    }
  }

  predicate AllVisited<V>(successors: seq<Migration<V>>, n: nat, visited: set<int>)
    requires n <= |successors|
  {
    forall j | 0 <= j < n :: successors[j].toVersion in visited
  }

  lemma AllVisitedNext<V>(successors: seq<Migration<V>>, n: nat, visited: set<int>)
    requires n < |successors| && AllVisited(successors, n, visited)
    ensures AllVisited(successors, n + 1, visited + {successors[n].toVersion})
  {
  }

  /** The search while the successors of `current` are being visited. */
  ghost predicate Expanding<V(!new)>(migrations: seq<Migration<V>>, start: int, goal: int, dist: map<int, nat>,
                                     queue: seq<Node<V>>, visited: set<int>, current: Node<V>)
  {
    && visited == dist.Keys
    && IsPath(migrations, start, current.version, current.path)
    && current.version in dist && dist[current.version] == |current.path|
    && Searching(migrations, start, goal, dist, queue, {current.version} + VersionsOf(queue), |current.path|)
  }

  /** Visits one successor, unless it is the goal. */
  method VisitSuccessor<V(!new)>(migrations: seq<Migration<V>>, migration: Migration<V>, toVersion: int,
                                 current: Node<V>,
                                 pending: seq<Node<V>>, seen: set<int>, ghost start: int, ghost before: map<int, nat>)
    returns (found: Option<seq<Migration<V>>>, queue: seq<Node<V>>, visited: set<int>, ghost dist: map<int, nat>)
    requires Expanding(migrations, start, toVersion, before, pending, seen, current)
    requires migration in migrations && migration.fromVersion == current.version
    ensures found.Some? ==> IsShortest(migrations, start, toVersion, found.value)
    ensures found.None? ==> Expanding(migrations, start, toVersion, dist, queue, visited, current)
    ensures found.None? ==> visited == seen + {migration.toVersion} && (visited == seen ==> queue == pending)
  {
    queue, visited, dist := pending, seen, before;
    if migration.toVersion in visited {
      return None, queue, visited, dist;
    }
    var path := current.path + [migration];
    ghost var open := {current.version} + VersionsOf(queue);
    PathExtends(migrations, start, current.path, migration);
    if migration.toVersion == toVersion {
      NextIsShortest(migrations, start, dist, open, path, toVersion, |current.path|);
      return Some(path), queue, visited, dist;
    }
    Visit(migrations, start, toVersion, dist, queue, open, |current.path|, migration, path);
    assert open + {migration.toVersion} == {current.version} + VersionsOf(queue + [Node(migration.toVersion, path)]);
    visited := visited + {migration.toVersion};
    dist := dist[migration.toVersion := |path|];
    queue := queue + [Node(migration.toVersion, path)];
    found := None;
  }

  /** Visits every successor of one node, or finds the goal among them. */
  method Expand<V(!new)>(migrations: seq<Migration<V>>, nextMigrations: seq<Migration<V>>, toVersion: int,
                         current: Node<V>, rest: seq<Node<V>>, seen: set<int>,
                         ghost start: int, ghost before: map<int, nat>)
    returns (found: Option<seq<Migration<V>>>, queue: seq<Node<V>>, visited: set<int>, ghost dist: map<int, nat>)
    requires nextMigrations == Leaving(migrations, current.version)
    requires Expanding(migrations, start, toVersion, before, rest, seen, current)
    ensures found.Some? ==> IsShortest(migrations, start, toVersion, found.value)
    ensures found.None? ==> visited == dist.Keys && (seen < visited || (visited == seen && queue == rest))
    ensures found.None? ==> Searching(migrations, start, toVersion, dist, queue, VersionsOf(queue), |current.path|)
  {
    found, queue, visited, dist := None, rest, seen, before;
    for i := 0 to |nextMigrations|
      invariant Expanding(migrations, start, toVersion, dist, queue, visited, current)
      invariant seen <= visited && (visited == seen ==> queue == rest)
      invariant AllVisited(nextMigrations, i, visited)
    {
      LeavingMember(migrations, current.version, i);
      AllVisitedNext(nextMigrations, i, visited);
      found, queue, visited, dist :=
        VisitSuccessor(migrations, nextMigrations[i], toVersion, current, queue, visited, start, dist);
      if found.Some? {
        return;
      }
    }
    found := None;
    CloseNode(migrations, start, toVersion, dist, queue, current.version, |current.path|);
  }

  /** Once every successor of a version was visited, the version is closed. */
  lemma CloseNode<V(!new)>(migrations: seq<Migration<V>>, start: int, goal: int, dist: map<int, nat>,
                           queue: seq<Node<V>>, version: int, level: nat)
    requires Searching(migrations, start, goal, dist, queue, {version} + VersionsOf(queue), level)
    requires version in dist && dist[version] == level
    requires AllVisited(Leaving(migrations, version), |Leaving(migrations, version)|, dist.Keys)
    ensures Searching(migrations, start, goal, dist, queue, VersionsOf(queue), level)
  {
    LeavingIsAll(migrations, version);
  }

  /** Taking the first node out of the queue leaves its version open. */
  lemma TakeFirst<V(!new)>(migrations: seq<Migration<V>>, start: int, goal: int, dist: map<int, nat>,
                           queue: seq<Node<V>>, level: nat)
    requires |queue| > 0 && Searching(migrations, start, goal, dist, queue, VersionsOf(queue), level)
    ensures Expanding(migrations, start, goal, dist, queue[1..], dist.Keys, queue[0])
  {
    var first, rest := queue[0], queue[1..];
    assert VersionsOf(queue) == {first.version} + VersionsOf(rest) by {
      forall v | v in VersionsOf(queue)
        ensures v in {first.version} + VersionsOf(rest)
      {
        var i :| 0 <= i < |queue| && queue[i].version == v;
        if i > 0 {
          assert rest[i - 1].version == v;
        }
      }
    }
    forall v | v in VersionsOf(rest)
      ensures |first.path| <= dist[v]
    {
      var i :| 0 <= i < |rest| && rest[i].version == v;
      assert queue[i + 1] == rest[i];
    }
    assert level <= |first.path|;
  }

  /** Breadth-first search: a shortest chain, or the certainty that there is none. */
  method SearchMigrationPath<V(!new)>(migrations: seq<Migration<V>>, index: map<int, seq<Migration<V>>>,
                                      fromVersion: int, toVersion: int)
    returns (r: Option<seq<Migration<V>>>)
    requires fromVersion != toVersion
    requires forall v :: Successors(index, v) == Leaving(migrations, v)
    ensures r.Some? ==> IsShortest(migrations, fromVersion, toVersion, r.value)
    ensures r.None? ==> !Reachable(migrations, fromVersion, toVersion)
  {
    var queue: seq<Node<V>> := [Node(fromVersion, [])];
    var visited := {fromVersion};
    ghost var dist: map<int, nat>, level: nat := map[fromVersion := 0], 0;
    ghost var all := Targets(migrations) + {fromVersion};
    SearchStarts(migrations, fromVersion, toVersion);
    while |queue| > 0
      invariant visited == dist.Keys
      invariant Searching(migrations, fromVersion, toVersion, dist, queue, VersionsOf(queue), level)
      decreases all - visited, |queue|
    {
      var current := queue[0];
      TakeFirst(migrations, fromVersion, toVersion, dist, queue, level);
      var nextMigrations := Successors(index, current.version);
      level := |current.path|;
      var found;
      found, queue, visited, dist :=
        Expand(migrations, nextMigrations, toVersion, current, queue[1..], visited, fromVersion, dist);
      if found.Some? {
        return found;
      }
    }
    ExhaustedIsUnreachable(migrations, fromVersion, toVersion, dist, queue, level);
    return None;
  }

  lemma SearchStarts<V(!new)>(migrations: seq<Migration<V>>, start: int, goal: int)
    requires start != goal
    ensures var queue: seq<Node<V>> := [Node(start, [])];
            Searching(migrations, start, goal, map[start := 0], queue, VersionsOf(queue), 0)
  {
    var queue: seq<Node<V>> := [Node(start, [])];
    assert queue[0].version == start && VersionsOf(queue) == {start};
  }

  /** With no node left to expand, a goal that was not visited is out of reach. */
  lemma ExhaustedIsUnreachable<V(!new)>(migrations: seq<Migration<V>>, start: int, goal: int, dist: map<int, nat>,
                                        queue: seq<Node<V>>, level: nat)
    requires queue == [] && Searching(migrations, start, goal, dist, queue, VersionsOf(queue), level)
    ensures !Reachable(migrations, start, goal)
  {
    forall path | IsPath(migrations, start, goal, path)
      ensures false
    {
      ReachedOrOpen(migrations, start, dist, VersionsOf(queue), goal, path);
    }
  }

  /** No migration at all when the versions agree, a shortest chain otherwise. */
  method FindMigrationPath<V(!new)>(migrations: seq<Migration<V>>, fromVersion: int, toVersion: int)
    returns (r: Option<seq<Migration<V>>>)
    ensures r.Some? <==> Reachable(migrations, fromVersion, toVersion)
    ensures r.Some? ==> IsShortest(migrations, fromVersion, toVersion, r.value)
  {
    if fromVersion == toVersion {
      assert IsPath(migrations, fromVersion, toVersion, []);
      return Some([]);
    }
    var index := BuildMigrationIndex(migrations);
    r := SearchMigrationPath(migrations, index, fromVersion, toVersion);
  }

  // ----- running the chain

  /** What the loader needs to know of saves: their version, whether they look like the oldest ones, and validation. */
  datatype Format<!V, W> = Format(
    versionOf: V -> Option<int>, legacyShape: V -> bool, validate: V -> Result<W, LoadError>)

  /** The save after the first `n` migrations, each of which must set the version it announces. */
  function Migrated<V>(versionOf: V -> Option<int>, value: V, path: seq<Migration<V>>, n: nat): Result<V, LoadError>
    requires n <= |path|
  {
    if n == 0 then Ok(value)
    else
      var before := Migrated(versionOf, value, path, n - 1);
      if before.Err? then before
      else
        var m := path[n - 1];
        var after := m.migrate(before.value);
        if after.Ok? && versionOf(after.value) != Some(m.toVersion)
        then Err(UnexpectedVersion(m.fromVersion, m.toVersion))
        else after
  }

  function DetectedVersion<V, W>(format: Format<V, W>, value: V): Option<int> {
    if format.versionOf(value).Some? then format.versionOf(value)
    else if format.legacyShape(value) then Some(0)
    else None
  }

  /** The saves on the way through the first `n` migrations: each step succeeds and sets the version it announces. */
  ghost predicate Passes<V>(versionOf: V -> Option<int>, value: V, path: seq<Migration<V>>, saves: seq<V>, n: nat)
    requires n <= |path|
  {
    && |saves| == n + 1 && saves[0] == value
    && forall k | 0 <= k < n ::
         path[k].migrate(saves[k]) == Ok(saves[k + 1]) && versionOf(saves[k + 1]) == Some(path[k].toVersion)
  }

  /** Why the migration after some saves does not go through: it fails itself, or sets another version. */
  ghost predicate Breaks<V>(versionOf: V -> Option<int>, m: Migration<V>, save: V, e: LoadError) {
    || m.migrate(save) == Err(e)
    || (&& m.migrate(save).Ok? && versionOf(m.migrate(save).value) != Some(m.toVersion)
        && e == UnexpectedVersion(m.fromVersion, m.toVersion))
  }

  /** A chain passes every save on to the next migration, or ends at the first one that breaks, with its error. */
  lemma {:induction false} MigratedPassesOrBreaks<V>(versionOf: V -> Option<int>, value: V, path: seq<Migration<V>>,
                                                     n: nat)
    returns (saves: seq<V>)
    requires n <= |path|
    ensures match Migrated(versionOf, value, path, n) {
              case Ok(v) => Passes(versionOf, value, path, saves, n) && v == saves[n]
              case Err(e) =>
                && 0 < |saves| <= n && Passes(versionOf, value, path, saves, |saves| - 1)
                && Breaks(versionOf, path[|saves| - 1], saves[|saves| - 1], e)
            }
  {
    if n == 0 {
      saves := [value];
    } else {
      saves := MigratedPassesOrBreaks(versionOf, value, path, n - 1);
      var after := Migrated(versionOf, value, path, n);
      saves := if after.Ok? then saves + [after.value] else saves;
    }
  }

  /** A save's own version counts; a save without one is of version 0 if it looks like the oldest ones. */
  lemma DetectsVersion<V, W>(format: Format<V, W>, value: V, version: int)
    ensures DetectedVersion(format, value) == Some(version) <==>
              format.versionOf(value) == Some(version)
              || (format.versionOf(value) == None && format.legacyShape(value) && version == 0)
  {
  }

  /** Detects the version, migrates along a shortest chain, and validates what comes out. */
  method LoadGameStateSaveFormat<V(!new), W>(format: Format<V, W>, migrations: seq<Migration<V>>, targetVersion: int,
                                             value: V)
    returns (r: Result<W, LoadError>)
    ensures match DetectedVersion(format, value) {
              case None => r == Err(UnknownVersion)
              case Some(version) =>
                if !Reachable(migrations, version, targetVersion) then r == Err(NoMigrationPath(version, targetVersion))
                else exists path ::
                       && IsShortest(migrations, version, targetVersion, path)
                       && match Migrated(format.versionOf, value, path, |path|) {
                            case Ok(migrated) => r == format.validate(migrated)
                            case Err(e) => r == Err(e)
                          }
            }
  {
    var detected := DetectedVersion(format, value);
    if detected.None? {
      return Err(UnknownVersion);
    }
    var path := FindMigrationPath(migrations, detected.value, targetVersion);
    if path.None? {
      return Err(NoMigrationPath(detected.value, targetVersion));
    }
    var migrated := RunMigrations(format.versionOf, value, path.value, migrations, detected.value, targetVersion);
    match migrated
    case Ok(v) => r := format.validate(v);
    case Err(e) => r := Err(e);
  }

  method RunMigrations<V(!new)>(versionOf: V -> Option<int>, value: V, path: seq<Migration<V>>,
                                ghost migrations: seq<Migration<V>>, fromVersion: int, ghost toVersion: int)
    returns (r: Result<V, LoadError>)
    requires IsPath(migrations, fromVersion, toVersion, path)
    ensures r == Migrated(versionOf, value, path, |path|)
  {
    var migrated, currentVersion := value, fromVersion;
    for i := 0 to |path|
      invariant Migrated(versionOf, value, path, i) == Ok(migrated)
      invariant currentVersion == if i == 0 then fromVersion else path[i - 1].toVersion
    {
      var migration := path[i];
      HopsMeet(migrations, fromVersion, toVersion, path, i);
      var after := migration.migrate(migrated);
      if after.Err? {
        FailureStays(versionOf, value, path, i + 1);
        return after;
      }
      migrated := after.value;
      if versionOf(migrated) != Some(migration.toVersion) {
        FailureStays(versionOf, value, path, i + 1);
        return Err(UnexpectedVersion(currentVersion, migration.toVersion));
      }
      currentVersion := migration.toVersion;
    }
    r := Ok(migrated);
  }

  lemma {:induction false} FailureStays<V>(versionOf: V -> Option<int>, value: V, path: seq<Migration<V>>, n: nat)
    requires n <= |path| && Migrated(versionOf, value, path, n).Err?
    ensures Migrated(versionOf, value, path, |path|) == Migrated(versionOf, value, path, n)
    decreases |path| - n
  {
    if n < |path| {
      FailureStays(versionOf, value, path, n + 1);
    }
  }

  /** Consecutive migrations of a chain meet: each leaves the version the one before arrived at. */
  lemma {:induction false} HopsMeet<V(!new)>(migrations: seq<Migration<V>>, start: int, goal: int,
                                             path: seq<Migration<V>>, k: nat)
    requires IsPath(migrations, start, goal, path) && k < |path|
    ensures path[k] in migrations && path[k].fromVersion == if k == 0 then start else path[k - 1].toVersion
    decreases |path|
  {
    var n := |path| - 1;
    if k < n {
      HopsMeet(migrations, start, path[n].fromVersion, path[..n], k);
    } else if k > 0 {
      assert path[..n][n - 1] == path[n - 1];
    }
  }

  /**
   * Every migration of a chain is handed a save of the version it leaves, where a save of the oldest shape
   * without a version counts as version 0; each save after the first names its version, and a chain that
   * runs through ends in a save of the target version.
   */
  lemma EveryHopGetsItsVersion<V(!new), W>(format: Format<V, W>, value: V, migrations: seq<Migration<V>>,
                                           start: int, goal: int, path: seq<Migration<V>>, k: nat)
    requires IsPath(migrations, start, goal, path) && DetectedVersion(format, value) == Some(start) && k <= |path|
    requires Migrated(format.versionOf, value, path, k).Ok?
    ensures var save := Migrated(format.versionOf, value, path, k).value;
            var version := if k < |path| then path[k].fromVersion else goal;
            DetectedVersion(format, save) == Some(version) && (k > 0 ==> format.versionOf(save) == Some(version))
  {
    if k < |path| {
      HopsMeet(migrations, start, goal, path, k);
    }
  }
}
