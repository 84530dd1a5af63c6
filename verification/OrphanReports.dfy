/** What a storage sweep requests, removes and reports, read off the projects, the build rows and the
    command's flags. */
module OrphanReports {
  import opened Options
  import opened OrphanSweep

  // ----- Ownership and scope -----

  /** p is the last of the projects with this storage key. */
  ghost predicate Owns(projects: seq<Project>, p: Project, key: Prefix) {
    exists i :: 0 <= i < |projects| && projects[i] == p && p.storageKey == key
                && forall j :: i < j < |projects| ==> projects[j].storageKey != key
  }

  ghost predicate Unowned(projects: seq<Project>, key: Prefix) {
    forall i :: 0 <= i < |projects| ==> projects[i].storageKey != key
  }

  lemma {:induction false} OwnerExactly(projects: seq<Project>, key: Prefix)
    ensures Owner(projects, key).None? <==> Unowned(projects, key)
    ensures Owner(projects, key).Some? ==> Owns(projects, Owner(projects, key).value, key)
  {
    if projects != [] {
      var n := |projects| - 1;
      OwnerExactly(projects[..n], key);
      if projects[n].storageKey != key && Owner(projects[..n], key).Some? {
        var i :| 0 <= i < n && projects[..n][i] == Owner(projects[..n], key).value && projects[i].storageKey == key
                 && forall j :: i < j < n ==> projects[..n][j].storageKey != key;
        assert forall j :: i < j < |projects| ==> j < n ==> projects[j] == projects[..n][j];
      }
    }
  }

  /** A prefix takes part when a project owns it and the run is for all projects or for that one. */
  ghost predicate Selected(w: World, flags: Flags, key: Prefix) {
    exists p :: Owns(w.projects, p, key) && (flags.projectID > 0 ==> p.id == flags.projectID)
  }

  lemma OwnersAgree(projects: seq<Project>, p: Project, q: Project, key: Prefix)
    requires Owns(projects, p, key) && Owns(projects, q, key)
    ensures p == q
  {
  }

  lemma ScopeExactly(w: World, flags: Flags, key: Prefix)
    ensures InScope(w, flags, key) <==> Selected(w, flags, key)
  {
    OwnerExactly(w.projects, key);
    if Selected(w, flags, key) {
      var p :| Owns(w.projects, p, key) && (flags.projectID > 0 ==> p.id == flags.projectID);
      OwnersAgree(w.projects, p, Owner(w.projects, key).value, key);
    }
  }

  // ----- What goes -----

  /** Taking things out goes through the list in order and keeps the rest. */
  lemma WithoutInOrder(a: seq<int>, d: int, gone: set<int>)
    ensures Without([], gone) == []
    ensures Without(a + [d], gone) == Without(a, gone) + if d in gone then [] else [d]
  {
    assert (a + [d])[..|a|] == a;
  }

  /** The stored dirs of a prefix that have no build row of the project that owns it. */
  ghost predicate IsOrphan(w: World, dirs: Dirs, key: Prefix, d: int) {
    d in Stored(dirs, key) && forall p :: Owns(w.projects, p, key) ==> d !in Rows(w, p.id)
  }

  lemma OrphansExactly(w: World, flags: Flags, dirs: Dirs, key: Prefix, d: int)
    requires Readable(w, flags, dirs, key)
    ensures d in OrphansOf(w, flags, dirs, key) <==> IsOrphan(w, dirs, key, d)
  {
    OwnerExactly(w.projects, key);
    var p := Owner(w.projects, key).value;
    if d in OrphansOf(w, flags, dirs, key) {
      forall q | Owns(w.projects, q, key) ensures d !in Rows(w, q.id) { OwnersAgree(w.projects, p, q, key); }
    }
  }

  /** The listing of the prefix succeeded, and that of the owner's builds unless there was no dir. */
  ghost predicate Listed(w: World, dirs: Dirs, key: Prefix) {
    key !in w.listFail && (Stored(dirs, key) == [] || forall p :: Owns(w.projects, p, key) ==> p.id !in w.buildsFail)
  }

  lemma ReadableExactly(w: World, flags: Flags, dirs: Dirs, key: Prefix)
    ensures Readable(w, flags, dirs, key) <==> Selected(w, flags, key) && Listed(w, dirs, key)
  {
    ScopeExactly(w, flags, key);
    OwnerExactly(w.projects, key);
    if InScope(w, flags, key) {
      var p := Owner(w.projects, key).value;
      forall q | Owns(w.projects, q, key) ensures q == p { OwnersAgree(w.projects, p, q, key); }
    }
  }

  /** The prefix has been asked to lose exactly its orphans and, if its prune succeeds, has lost just
      them. */
  ghost predicate Cleaned(w: World, flags: Flags, dirs: Dirs, s': State, key: Prefix) {
    && Request(key, OrphansOf(w, flags, dirs, key)) in s'.requests
    && (key !in w.pruneFail ==>
          forall d :: d in Stored(s'.dirs, key) <==> d in Stored(dirs, key) && !IsOrphan(w, dirs, key, d))
  }

  lemma VisitCleans(w: World, flags: Flags, dirs: Dirs, s: State, key: Prefix)
    requires flags.apply && Readable(w, flags, dirs, key) && OrphansOf(w, flags, dirs, key) != [] && Stored(s.dirs, key) == Stored(dirs, key)
    ensures Cleaned(w, flags, dirs, Visit(w, flags, s, key), key)
  {
    var o := OrphansOf(w, flags, dirs, key);
    assert OrphansOf(w, flags, s.dirs, key) == o;
    forall d ensures d in o <==> IsOrphan(w, dirs, key, d) { OrphansExactly(w, flags, dirs, key, d); }
  }

  lemma CleanedStays(w: World, flags: Flags, dirs: Dirs, s: State, key: Prefix, other: Prefix)
    requires Cleaned(w, flags, dirs, s, key) && other != key
    ensures Cleaned(w, flags, dirs, Visit(w, flags, s, other), key)
  {
    VisitLocal(w, flags, s, other, key);
    RequestsGrow(w, flags, s, other);
  }

  lemma {:induction false} SweepCleans(w: World, flags: Flags, s: State, keys: seq<Prefix>, key: Prefix)
    requires Distinct(keys) && key in keys && flags.apply
    requires Readable(w, flags, s.dirs, key) && OrphansOf(w, flags, s.dirs, key) != []
    ensures Cleaned(w, flags, s.dirs, Sweep(w, flags, s, keys), key)
  {
    var n := |keys| - 1;
    var s1 := Sweep(w, flags, s, keys[..n]);
    assert Sweep(w, flags, s, keys) == Visit(w, flags, s1, keys[n]);
    if keys[n] == key {
      assert key !in keys[..n];
      SweepLocal(w, flags, s, keys[..n], key);
      VisitCleans(w, flags, s.dirs, s1, key);
    } else {
      assert key in keys[..n] && Distinct(keys[..n]);
      SweepCleans(w, flags, s, keys[..n], key);
      CleanedStays(w, flags, s.dirs, s1, key, keys[n]);
    }
  }

  /** Every selected prefix that could be listed and has an orphan is cleaned. */
  lemma SweepIsComplete(w: World, flags: Flags, s: State, keys: seq<Prefix>, key: Prefix)
    requires Distinct(keys) && key in keys && flags.apply
    requires Selected(w, flags, key) && Listed(w, s.dirs, key) && exists d :: IsOrphan(w, s.dirs, key, d)
    ensures Cleaned(w, flags, s.dirs, Sweep(w, flags, s, keys), key)
    ensures forall d :: d in OrphansOf(w, flags, s.dirs, key) <==> IsOrphan(w, s.dirs, key, d)
  {
    ReadableExactly(w, flags, s.dirs, key);
    forall d ensures d in OrphansOf(w, flags, s.dirs, key) <==> IsOrphan(w, s.dirs, key, d) {
      OrphansExactly(w, flags, s.dirs, key, d);
    }
    SomeOrphan(w, flags, s.dirs, key);
    SweepCleans(w, flags, s, keys, key);
  }

  lemma RequestsGrow(w: World, flags: Flags, s: State, key: Prefix)
    ensures s.requests <= Visit(w, flags, s, key).requests
  {
  }

  /** Nothing is requested for a prefix that is not selected, and its dirs stay: those no project
      owns, and in a run for one project those of all others. */
  lemma {:induction false} OnlySelected(w: World, flags: Flags, s: State, keys: seq<Prefix>, key: Prefix)
    requires !Selected(w, flags, key)
    ensures Stored(Sweep(w, flags, s, keys).dirs, key) == Stored(s.dirs, key)
    ensures forall r :: r in Sweep(w, flags, s, keys).requests && r.key == key ==> r in s.requests
  {
    if keys != [] {
      OnlySelected(w, flags, s, keys[..|keys| - 1], key);
      ScopeExactly(w, flags, key);
    }
  }

  // ----- What is reported -----

  ghost function UnownedOf(w: World, keys: seq<Prefix>): seq<Prefix> {
    if keys == [] then []
    else UnownedOf(w, keys[..|keys| - 1]) + if Unowned(w.projects, keys[|keys| - 1]) then [keys[|keys| - 1]] else []
  }

  ghost function SelectedOf(w: World, flags: Flags, keys: seq<Prefix>): nat {
    if keys == [] then 0
    else SelectedOf(w, flags, keys[..|keys| - 1]) + if Selected(w, flags, keys[|keys| - 1]) then 1 else 0
  }

  /** A prefix fails when it cannot be listed, or has orphans to remove and its prune fails. */
  ghost predicate Fails(w: World, flags: Flags, dirs: Dirs, key: Prefix) {
    && Selected(w, flags, key)
    && (!Listed(w, dirs, key) || (flags.apply && key in w.pruneFail && exists d :: IsOrphan(w, dirs, key, d)))
  }

  ghost function FailuresOf(w: World, flags: Flags, dirs: Dirs, keys: seq<Prefix>): nat {
    if keys == [] then 0
    else FailuresOf(w, flags, dirs, keys[..|keys| - 1]) + if Fails(w, flags, dirs, keys[|keys| - 1]) then 1 else 0
  }

  lemma VisitReports(w: World, flags: Flags, s: State, key: Prefix)
    ensures var r, r' := s.result, Visit(w, flags, s, key).result;
            && r'.unknownPrefixes == r.unknownPrefixes + (if flags.projectID <= 0 && Unowned(w.projects, key) then [key] else [])
            && r'.projectsScanned == r.projectsScanned + (if Selected(w, flags, key) then 1 else 0)
            && r'.failures == r.failures + (if Fails(w, flags, s.dirs, key) then 1 else 0)
  {
    OwnerExactly(w.projects, key);
    ScopeExactly(w, flags, key);
    FailureExactly(w, flags, s.dirs, key);
  }

  lemma SomeOrphan(w: World, flags: Flags, dirs: Dirs, key: Prefix)
    requires Readable(w, flags, dirs, key)
    ensures OrphansOf(w, flags, dirs, key) != [] <==> exists d :: IsOrphan(w, dirs, key, d)
  {
    var o := OrphansOf(w, flags, dirs, key);
    if o != [] { OrphansExactly(w, flags, dirs, key, o[0]); }
    if d :| IsOrphan(w, dirs, key, d) { OrphansExactly(w, flags, dirs, key, d); }
  }

  lemma FailureExactly(w: World, flags: Flags, dirs: Dirs, key: Prefix)
    ensures Fails(w, flags, dirs, key) <==>
            InScope(w, flags, key)
            && (!Readable(w, flags, dirs, key) || (flags.apply && key in w.pruneFail && OrphansOf(w, flags, dirs, key) != []))
  {
    ScopeExactly(w, flags, key);
    ReadableExactly(w, flags, dirs, key);
    if Readable(w, flags, dirs, key) { SomeOrphan(w, flags, dirs, key); }
  }

  lemma SameFailure(w: World, flags: Flags, dirs: Dirs, dirs': Dirs, key: Prefix)
    requires Stored(dirs, key) == Stored(dirs', key)
    ensures Fails(w, flags, dirs, key) == Fails(w, flags, dirs', key)
  {
    assert forall d :: IsOrphan(w, dirs, key, d) == IsOrphan(w, dirs', key, d);
  }

  /** The sweep lists the prefixes no project owns, unless it is for one project. */
  lemma {:induction false} SweepListsUnowned(w: World, flags: Flags, s: State, keys: seq<Prefix>)
    ensures Sweep(w, flags, s, keys).result.unknownPrefixes ==
            s.result.unknownPrefixes + if flags.projectID <= 0 then UnownedOf(w, keys) else []
  {
    if keys != [] {
      var n := |keys| - 1;
      SweepListsUnowned(w, flags, s, keys[..n]);
      VisitReports(w, flags, Sweep(w, flags, s, keys[..n]), keys[n]);
    }
  }

  /** It counts the projects it scanned, and every failure. */
  lemma {:induction false} SweepReports(w: World, flags: Flags, s: State, keys: seq<Prefix>)
    requires Distinct(keys)
    ensures var r, r' := s.result, Sweep(w, flags, s, keys).result;
            && r'.projectsScanned == r.projectsScanned + SelectedOf(w, flags, keys)
            && r'.failures == r.failures + FailuresOf(w, flags, s.dirs, keys)
  {
    if keys != [] {
      var n := |keys| - 1;
      var s1 := Sweep(w, flags, s, keys[..n]);
      SweepReports(w, flags, s, keys[..n]);
      SweepLocal(w, flags, s, keys[..n], keys[n]);
      VisitReports(w, flags, s1, keys[n]);
      SameFailure(w, flags, s.dirs, s1.dirs, keys[n]);
    }
  }

  /** How many orphans the prefixes have, and how many of them were removed. */
  ghost function OrphanCount(w: World, flags: Flags, dirs: Dirs, keys: seq<Prefix>): nat {
    if keys == [] then 0
    else OrphanCount(w, flags, dirs, keys[..|keys| - 1]) + |OrphansOf(w, flags, dirs, keys[|keys| - 1])|
  }

  ghost function DeletedCount(w: World, flags: Flags, dirs: Dirs, keys: seq<Prefix>): nat {
    if keys == [] then 0
    else
      var key := keys[|keys| - 1];
      DeletedCount(w, flags, dirs, keys[..|keys| - 1])
      + if flags.apply && key !in w.pruneFail then |OrphansOf(w, flags, dirs, key)| else 0
  }

  /** Every orphan is counted once, and every orphan a prune removed. */
  lemma {:induction false} SweepCounts(w: World, flags: Flags, s: State, keys: seq<Prefix>)
    requires Distinct(keys)
    ensures var r, r' := s.result, Sweep(w, flags, s, keys).result;
            && r'.orphanDirs == r.orphanDirs + OrphanCount(w, flags, s.dirs, keys)
            && r'.dirsDeleted == r.dirsDeleted + DeletedCount(w, flags, s.dirs, keys)
  {
    if keys != [] {
      var n := |keys| - 1;
      SweepCounts(w, flags, s, keys[..n]);
      SweepLocal(w, flags, s, keys[..n], keys[n]);
      assert OrphansOf(w, flags, Sweep(w, flags, s, keys[..n]).dirs, keys[n]) == OrphansOf(w, flags, s.dirs, keys[n]);
    }
  }
}
