/** The storage orphan sweep of api/cmd/gcstorage/main.go under any pattern of failures.

    The database, the listings and the outcome of each prune are inputs (`World`); a failing
    prune may already have removed any part of what it was asked to remove. Interruption is
    the number of prefixes visited before the context is cancelled. */
module OrphanSweep {
  import opened Options

  /** A project's storage prefix. */
  datatype Prefix = Prefix(text: string)

  datatype Project = Project(id: int, storageKey: Prefix)

  datatype World = World(
    projects: seq<Project>,
    builds: map<int, seq<int>>,            // build numbers listed for a project
    buildsFail: set<int>,                  // projects whose build listing fails
    listFail: set<Prefix>,                 // prefixes whose report listing fails
    pruneFail: map<Prefix, set<int>>)      // prefixes whose prune fails, and what it removed before failing

  datatype Flags = Flags(apply: bool, projectID: int)

  datatype SweepResult = SweepResult(
    projectsScanned: int, orphanDirs: int, dirsDeleted: int, unknownPrefixes: seq<Prefix>, failures: int)

  datatype Request = Request(key: Prefix, dirs: seq<int>)

  type Dirs = map<Prefix, seq<int>>

  // ----- Who owns what -----

  /** The project a prefix belongs to; of several with one storage key the last wins. */
  function Owner(projects: seq<Project>, key: Prefix): Option<Project> {
    if projects == [] then None
    else
      var n := |projects| - 1;
      if projects[n].storageKey == key then Some(projects[n]) else Owner(projects[..n], key)
  }

  function Rows(w: World, id: int): seq<int> { if id in w.builds then w.builds[id] else [] }

  function Stored(dirs: Dirs, key: Prefix): seq<int> { if key in dirs then dirs[key] else [] }

  /** `all` without the members of `gone`, order kept. */
  function Without(all: seq<int>, gone: set<int>): (r: seq<int>)
    ensures forall x :: x in r <==> x in all && x !in gone
  {
    if all == [] then []
    else
      var n := |all| - 1;
      Without(all[..n], gone) + (if all[n] in gone then [] else [all[n]])
  }

  function AsSet(s: seq<int>): set<int> { set x | x in s }

  predicate InScope(w: World, flags: Flags, key: Prefix) {
    var p := Owner(w.projects, key);
    p.Some? && (flags.projectID <= 0 || p.value.id == flags.projectID)
  }

  /** Both listings of an owned, selected prefix succeed; an empty prefix needs only the first. */
  predicate Readable(w: World, flags: Flags, dirs: Dirs, key: Prefix) {
    && InScope(w, flags, key)
    && key !in w.listFail
    && (Stored(dirs, key) == [] || Owner(w.projects, key).value.id !in w.buildsFail)
  }

  /** The report dirs of a prefix with no build row of the owning project. */
  function OrphansOf(w: World, flags: Flags, dirs: Dirs, key: Prefix): seq<int> {
    if Readable(w, flags, dirs, key)
    then Without(Stored(dirs, key), AsSet(Rows(w, Owner(w.projects, key).value.id)))
    else []
  }

  // ----- One prefix -----

  datatype State = State(dirs: Dirs, requests: seq<Request>, result: SweepResult)

  function Visit(w: World, flags: Flags, s: State, key: Prefix): State {
    var r := s.result;
    if Owner(w.projects, key).None? then
      if flags.projectID > 0 then s
      else s.(result := r.(unknownPrefixes := r.unknownPrefixes + [key]))
    else if !InScope(w, flags, key) then s
    else
      var r1 := r.(projectsScanned := r.projectsScanned + 1);
      if !Readable(w, flags, s.dirs, key) then s.(result := r1.(failures := r.failures + 1))
      else
        Dispose(w, flags, s.(result := r1), key, OrphansOf(w, flags, s.dirs, key))
  }

  /** Counts the orphans of a prefix and, when applying, asks for their removal. */
  function Dispose(w: World, flags: Flags, s: State, key: Prefix, orphans: seq<int>): State {
    var r := s.result;
    if orphans == [] then s
    else
      var counted := r.(orphanDirs := r.orphanDirs + |orphans|);
      if !flags.apply then s.(result := counted)
      else if key in w.pruneFail then
        State(Pruned(s.dirs, key, AsSet(orphans) * w.pruneFail[key]), s.requests + [Request(key, orphans)],
              counted.(failures := r.failures + 1))
      else
        State(Pruned(s.dirs, key, AsSet(orphans)), s.requests + [Request(key, orphans)],
              counted.(dirsDeleted := r.dirsDeleted + |orphans|))
  }

  function Pruned(dirs: Dirs, key: Prefix, gone: set<int>): Dirs {
    dirs[key := Without(Stored(dirs, key), gone)]
  }

  function Sweep(w: World, flags: Flags, s: State, keys: seq<Prefix>): State {
    if keys == [] then s
    else Visit(w, flags, Sweep(w, flags, s, keys[..|keys| - 1]), keys[|keys| - 1])
  }

  const NO_RESULT := SweepResult(0, 0, 0, [], 0)

  // ----- The command -----

  class DataStore {
    var dirs: Dirs
    var requests: seq<Request>  // every PruneReportDirs call made

    method PruneReportDirs(key: Prefix, orders: seq<int>, failsAfter: Option<set<int>>) returns (ok: bool)
      modifies this
      ensures ok == failsAfter.None?
      ensures requests == old(requests) + [Request(key, orders)]
      ensures dirs == Pruned(old(dirs), key, if ok then AsSet(orders) else AsSet(orders) * failsAfter.value)
    {
      requests := requests + [Request(key, orders)];
      dirs := Pruned(dirs, key, if failsAfter.None? then AsSet(orders) else AsSet(orders) * failsAfter.value);
      ok := failsAfter.None?;
    }
  }

  /** `keys` is what ListProjects returned, None when it failed; `stop` prefixes are visited
      before the run is interrupted. */
  method SweepStorageOrphans(w: World, keys: Option<seq<Prefix>>, stop: nat, store: DataStore, flags: Flags)
    returns (result: SweepResult)
    modifies store
    ensures keys.None? ==> result == NO_RESULT.(failures := 1) && store.dirs == old(store.dirs) && store.requests == old(store.requests)
    ensures keys.Some? ==>
              var visited := if stop < |keys.value| then keys.value[..stop] else keys.value;
              State(store.dirs, store.requests, result) ==
              Sweep(w, flags, State(old(store.dirs), old(store.requests), NO_RESULT), visited)
  {
    result := NO_RESULT;
    var byKey: map<Prefix, Project> := map[];
    for i := 0 to |w.projects|
      invariant forall k :: k in byKey <==> Owner(w.projects[..i], k).Some?
      invariant forall k :: k in byKey ==> Owner(w.projects[..i], k) == Some(byKey[k])
    {
      byKey := byKey[w.projects[i].storageKey := w.projects[i]];
      assert w.projects[..i + 1][..i] == w.projects[..i];
    }
    assert w.projects[..|w.projects|] == w.projects;

    if keys.None? {
      result := result.(failures := result.failures + 1);
      return;
    }
    ghost var s0 := State(store.dirs, store.requests, NO_RESULT);
    var n := if stop < |keys.value| then stop else |keys.value|;
    for i := 0 to n
      invariant State(store.dirs, store.requests, result) == Sweep(w, flags, s0, keys.value[..i])
    {
      ghost var s := State(store.dirs, store.requests, result);
      var key := keys.value[i];
      result := VisitPrefix(w, byKey, store, flags, key, result);
      assert keys.value[..i + 1][..i] == keys.value[..i];
    }
    assert keys.value[..|keys.value|] == keys.value;
  }

  /** The loop body of the sweep. */
  method VisitPrefix(w: World, byKey: map<Prefix, Project>, store: DataStore, flags: Flags, key: Prefix, before: SweepResult)
    returns (result: SweepResult)
    requires key in byKey <==> Owner(w.projects, key).Some?
    requires key in byKey ==> Owner(w.projects, key) == Some(byKey[key])
    modifies store
    ensures State(store.dirs, store.requests, result) ==
            Visit(w, flags, State(old(store.dirs), old(store.requests), before), key)
  {
    result := before;
    if key !in byKey {
      if flags.projectID > 0 {
        return;
      }
      result := result.(unknownPrefixes := result.unknownPrefixes + [key]);
      return;
    }
    var p := byKey[key];
    if flags.projectID > 0 && p.id != flags.projectID {
      return;
    }
    result := result.(projectsScanned := result.projectsScanned + 1);
    if key in w.listFail {
      result := result.(failures := result.failures + 1);
      return;
    }
    var stored := Stored(store.dirs, key);
    if |stored| == 0 {
      assert Without(stored, AsSet(Rows(w, p.id))) == [];
      return;
    }
    if p.id in w.buildsFail {
      result := result.(failures := result.failures + 1);
      return;
    }
    var orphans := FindOrphans(stored, Rows(w, p.id));
    result := DisposeOrphans(w, store, flags, key, orphans, result);
  }

  method DisposeOrphans(w: World, store: DataStore, flags: Flags, key: Prefix, orphans: seq<int>, before: SweepResult)
    returns (result: SweepResult)
    modifies store
    ensures State(store.dirs, store.requests, result) ==
            Dispose(w, flags, State(old(store.dirs), old(store.requests), before), key, orphans)
  {
    result := before;
    if |orphans| == 0 {
      return;
    }
    result := result.(orphanDirs := result.orphanDirs + |orphans|);
    if !flags.apply {
      return;
    }
    var ok := store.PruneReportDirs(key, orphans, if key in w.pruneFail then Some(w.pruneFail[key]) else None);
    if !ok {
      result := result.(failures := result.failures + 1);
      return;
    }
    result := result.(dirsDeleted := result.dirsDeleted + |orphans|);
  }

  method FindOrphans(stored: seq<int>, rows: seq<int>) returns (orphans: seq<int>)
    ensures orphans == Without(stored, AsSet(rows))
  {
    var known: set<int> := {};
    for i := 0 to |rows|
      invariant known == AsSet(rows[..i])
    {
      known := known + {rows[i]};
      assert rows[..i + 1] == rows[..i] + [rows[i]];
    }
    assert rows[..|rows|] == rows;
    orphans := [];
    for i := 0 to |stored|
      invariant orphans == Without(stored[..i], known)
    {
      if stored[i] !in known {
        orphans := orphans + [stored[i]];
      }
      assert stored[..i + 1][..i] == stored[..i];
    }
    assert stored[..|stored|] == stored;
  }

  // ----- What a sweep may delete -----

  ghost predicate Distinct(keys: seq<Prefix>) {
    forall i, j :: 0 <= i < j < |keys| ==> keys[i] != keys[j]
  }

  /** Dirs before and after, at one prefix: only orphans of the owning project may be missing. */
  ghost predicate OnlyOrphansGone(w: World, flags: Flags, dirs: Dirs, dirs': Dirs, key: Prefix) {
    && (forall d :: d in Stored(dirs', key) ==> d in Stored(dirs, key))
    && (forall d :: d in Stored(dirs, key) && d !in Stored(dirs', key) ==> d in OrphansOf(w, flags, dirs, key))
  }

  lemma VisitLocal(w: World, flags: Flags, s: State, key: Prefix, other: Prefix)
    requires other != key
    ensures Stored(Visit(w, flags, s, key).dirs, other) == Stored(s.dirs, other)
  {
  }

  /** Prefixes not visited keep their dirs. */
  lemma {:induction false} SweepLocal(w: World, flags: Flags, s: State, keys: seq<Prefix>, other: Prefix)
    requires other !in keys
    ensures Stored(Sweep(w, flags, s, keys).dirs, other) == Stored(s.dirs, other)
  {
    if keys != [] {
      var n := |keys| - 1;
      SweepLocal(w, flags, s, keys[..n], other);
      VisitLocal(w, flags, Sweep(w, flags, s, keys[..n]), keys[n], other);
    }
  }

  /** A request made for `key` against the listing `dirs` of the start of the sweep. */
  ghost predicate Justified(w: World, flags: Flags, dirs: Dirs, r: Request) {
    && flags.apply && InScope(w, flags, r.key)
    && r.dirs == OrphansOf(w, flags, dirs, r.key) != []
    && forall d :: d in r.dirs ==> d in Stored(dirs, r.key) && d !in Rows(w, Owner(w.projects, r.key).value.id)
  }

  /** Every prune request names exactly the orphans of the owning project, and nothing else
      ever disappears: unknown prefixes, other projects and dry runs lose nothing. */
  lemma {:induction false} SweepDeletesOnlyOrphans(w: World, flags: Flags, s: State, keys: seq<Prefix>)
    requires Distinct(keys)
    ensures var s' := Sweep(w, flags, s, keys);
            && s.requests <= s'.requests
            && (forall i :: |s.requests| <= i < |s'.requests| ==> Justified(w, flags, s.dirs, s'.requests[i]))
            && (forall key :: OnlyOrphansGone(w, flags, s.dirs, s'.dirs, key))
            && (!flags.apply ==> s'.dirs == s.dirs && s'.requests == s.requests)
  {
    if keys != [] {
      var n := |keys| - 1;
      SweepDeletesOnlyOrphans(w, flags, s, keys[..n]);
      SweepLocal(w, flags, s, keys[..n], keys[n]);
      var s1, s2, key := Sweep(w, flags, s, keys[..n]), Sweep(w, flags, s, keys), keys[n];
      assert OrphansOf(w, flags, s1.dirs, key) == OrphansOf(w, flags, s.dirs, key);
      assert flags.apply && OrphansOf(w, flags, s.dirs, key) != [] ==>
               Justified(w, flags, s.dirs, Request(key, OrphansOf(w, flags, s.dirs, key)));
      forall other ensures OnlyOrphansGone(w, flags, s.dirs, s2.dirs, other) {
        assert OnlyOrphansGone(w, flags, s.dirs, s1.dirs, other);
        if other != key { VisitLocal(w, flags, s1, key, other); }
      }
    }
  }

  // ----- Accounting -----

  /** Orphans that stay counted but undeleted: dry runs and failed prunes. */
  function Undeleted(w: World, flags: Flags, dirs: Dirs, keys: seq<Prefix>): nat {
    if keys == [] then 0
    else
      var n := |keys| - 1;
      Undeleted(w, flags, dirs, keys[..n])
      + if !flags.apply || keys[n] in w.pruneFail then |OrphansOf(w, flags, dirs, keys[n])| else 0
  }

  /** orphanDirs - dirsDeleted is exactly the orphans of dry-run or failed-prune prefixes. */
  lemma {:induction false} SweepAccounts(w: World, flags: Flags, s: State, keys: seq<Prefix>)
    requires Distinct(keys)
    ensures var r, r' := s.result, Sweep(w, flags, s, keys).result;
            (r'.orphanDirs - r'.dirsDeleted) - (r.orphanDirs - r.dirsDeleted) == Undeleted(w, flags, s.dirs, keys)
  {
    if keys != [] {
      var n := |keys| - 1;
      SweepAccounts(w, flags, s, keys[..n]);
      SweepLocal(w, flags, s, keys[..n], keys[n]);
      assert OrphansOf(w, flags, Sweep(w, flags, s, keys[..n]).dirs, keys[n]) == OrphansOf(w, flags, s.dirs, keys[n]);
    }
  }

  // ----- A second sweep -----

  /** The sweep read the prefix's listings and, if it found orphans, removed them. */
  predicate Succeeds(w: World, flags: Flags, dirs: Dirs, key: Prefix) {
    flags.apply && Readable(w, flags, dirs, key) && key !in w.pruneFail
  }

  /** The same database and projects; anything may fail differently. */
  predicate SameTables(w: World, w': World) { w.projects == w'.projects && w.builds == w'.builds }

  lemma Member(s: seq<int>) returns (d: int)
    requires s != []
    ensures d in s
  {
    d := s[0];
  }

  lemma CleanAfterVisit(w: World, flags: Flags, s: State, key: Prefix, w': World, flags': Flags)
    requires Succeeds(w, flags, s.dirs, key) && SameTables(w, w')
    ensures OrphansOf(w', flags', Visit(w, flags, s, key).dirs, key) == []
  {
    var s' := Visit(w, flags, s, key);
    var again := OrphansOf(w', flags', s'.dirs, key);
    if again != [] {
      var d := Member(again);
      assert false;
    }
  }

  /** Where the first sweep succeeded a later look finds no orphan, whatever its scope and
      whatever fails then. */
  lemma {:induction false} PrunedIsClean(w: World, flags: Flags, s: State, keys: seq<Prefix>, key: Prefix, w': World, flags': Flags)
    requires Distinct(keys) && key in keys && Succeeds(w, flags, s.dirs, key) && SameTables(w, w')
    ensures OrphansOf(w', flags', Sweep(w, flags, s, keys).dirs, key) == []
  {
    var n := |keys| - 1;
    var s1 := Sweep(w, flags, s, keys[..n]);
    if keys[n] == key {
      SweepLocal(w, flags, s, keys[..n], key);
      CleanAfterVisit(w, flags, s1, key, w', flags');
    } else {
      PrunedIsClean(w, flags, s, keys[..n], key, w', flags');
      VisitLocal(w, flags, s1, keys[n], key);
    }
  }

  /** An immediate second sweep, over prefixes where the first succeeded or that no project owns,
      requests, deletes and counts nothing. */
  lemma {:induction false} SecondSweepFindsNothing(
    w: World, flags: Flags, s: State, keys: seq<Prefix>, w': World, flags': Flags, again: seq<Prefix>)
    requires Distinct(keys) && SameTables(w, w')
    requires forall k :: k in again ==> Owner(w.projects, k).None? || (k in keys && Succeeds(w, flags, s.dirs, k))
    ensures var s1 := Sweep(w, flags, s, keys);
            var s2 := Sweep(w', flags', s1, again);
            && s2.dirs == s1.dirs && s2.requests == s1.requests
            && s2.result.orphanDirs == s1.result.orphanDirs && s2.result.dirsDeleted == s1.result.dirsDeleted
  {
    if again != [] {
      var n := |again| - 1;
      SecondSweepFindsNothing(w, flags, s, keys, w', flags', again[..n]);
      assert again[n] in again;
      if Owner(w.projects, again[n]).Some? {
        PrunedIsClean(w, flags, s, keys, again[n], w', flags');
      }
    }
  }
}
