/** From single calls to the outcome of account events: set-up, switch, removal, restart and boot. */
module UserSteps {
  import opened Paths
  import opened FileDeal
  import opened ServiceState
  import opened Places
  import opened EntryFacts

  // ----- setting up a user -----

  lemma EmptyHasPlace(a: Disk, b: Disk, u: int)
    requires Base in a.dirs && forall p :: !Inside(p, UserDir(u)) ==> SameAt(a, b, p)
    requires forall p :: Inside(p, UserDir(u)) ==> !Exists(b, p)
    ensures PlaceFor(b, u)
  {
    UserDirsInside(u);
    assert !Inside(Base, UserDir(u)) && SameAt(a, b, Base);
  }

  lemma TidiedKeeps(a: Disk, b: Disk, u: int)
    requires Tidied(a, b)
    ensures Laid(a, u) ==> Laid(b, u)
    ensures CanBeLaid(a, u) ==> CanBeLaid(b, u)
  {
  }

  lemma TidiedKeepsAll(a: Disk, b: Disk)
    requires Tidied(a, b)
    ensures forall u :: Laid(a, u) ==> Laid(b, u)
  {
    forall u ensures Laid(a, u) ==> Laid(b, u) {
      TidiedKeeps(a, b, u);
    }
  }

  lemma SameIsTidied(d: Disk)
    ensures Tidied(d, d)
  {
  }

  lemma LaidByParts(a: Disk, b: Disk, u: int, made: bool)
    requires DirsMade(a, b, u, made)
    ensures CanBeLaid(a, u) ==>
              PlaceFor(a, u) && OriginalPath(u, System) !in b.dirs && OriginalPath(u, Lockscreen) !in b.dirs
  {
    MadeIsTidied(a, b, u, made);
    TidiedKeeps(a, b, u);
  }

  lemma HasPlace(d: Disk, u: int)
    requires CanBeLaid(d, u)
    ensures PlaceFor(d, u)
  {
  }

  lemma OriginalsDiffer(a: Disk, b: Disk, u: int)
    requires forall q :: q != OriginalPath(u, System) ==> SameAt(a, b, q)
    requires OriginalPath(u, Lockscreen) !in a.dirs
    ensures OriginalPath(u, Lockscreen) !in b.dirs
  {
    assert SameAt(a, b, OriginalPath(u, Lockscreen));
  }

  lemma MadeIsTidied(a: Disk, b: Disk, u: int, ok: bool)
    requires DirsMade(a, b, u, ok)
    ensures Tidied(a, b)
    ensures ok ==> UserDirs(u) <= b.dirs
  {
  }

  lemma RemovedIsTidied(a: Disk, b: Disk, u: int, k: WallpaperType)
    requires forall q :: q != OriginalPath(u, k) ==> SameAt(a, b, q)
    requires !Exists(b, OriginalPath(u, k)) || b == a
    ensures Tidied(a, b)
  {
    forall p | p != OriginalPath(u, k) ensures SameAt(a, b, p) {}
    forall p
      ensures p in b.files ==> p in a.files
      ensures p in a.dirs && !IsOriginal(p) ==> p in b.dirs
      ensures p in b.dirs && IsOriginal(p) ==> p in a.dirs
    {
      assert p != OriginalPath(u, k) ==> SameAt(a, b, p);
    }
  }

  lemma RemovedIsScaffold(a: Disk, b: Disk, u: int, k: WallpaperType)
    requires forall q :: q != OriginalPath(u, k) ==> SameAt(a, b, q)
    requires !Exists(b, OriginalPath(u, k)) || b == a
    ensures ScaffoldOnly(a, b)
  {
    forall p ensures if IsOriginal(p) then !Exists(b, p) || SameAt(a, b, p) else KeptAt(a, b, p) {
      assert p != OriginalPath(u, k) ==> SameAt(a, b, p);
    }
  }

  lemma TidiedTransitive(a: Disk, b: Disk, c: Disk)
    requires Tidied(a, b) && Tidied(b, c)
    ensures Tidied(a, c)
  {
  }

  lemma StartTouchesUser(a: Disk, b: Disk, c: Disk, d: Disk, u: int, made: bool)
    requires DirsMade(a, b, u, made)
    requires forall q :: q != OriginalPath(u, System) ==> SameAt(b, c, q)
    requires forall q :: q != OriginalPath(u, Lockscreen) ==> SameAt(c, d, q)
    ensures forall p :: !Inside(p, UserDir(u)) ==> SameAt(a, d, p)
  {
    DirsMadeOutside(a, b, u, made);
    UserDirsInside(u);
    forall p | !Inside(p, UserDir(u)) ensures SameAt(a, d, p) {
      assert p != OriginalPath(u, System) && p != OriginalPath(u, Lockscreen);
      assert SameAt(a, b, p) && SameAt(b, c, p) && SameAt(c, d, p);
    }
  }

  /** A whole set-up: the directories made, then both originals removed. */
  lemma TidyByParts(a: Disk, b: Disk, c: Disk, d: Disk, u: int, made: bool)
    requires DirsMade(a, b, u, made)
    requires forall q :: q != OriginalPath(u, System) ==> SameAt(b, c, q)
    requires forall q :: q != OriginalPath(u, Lockscreen) ==> SameAt(c, d, q)
    requires !Exists(c, OriginalPath(u, System)) || c == b
    requires !Exists(d, OriginalPath(u, Lockscreen)) || d == c
    ensures Tidied(a, d)
    ensures made && !Exists(c, OriginalPath(u, System)) && !Exists(d, OriginalPath(u, Lockscreen)) ==> Laid(d, u)
    ensures forall p :: !Inside(p, UserDir(u)) ==> SameAt(a, d, p)
  {
    StartTouchesUser(a, b, c, d, u, made);
    MadeIsTidied(a, b, u, made);
    RemovedIsTidied(b, c, u, System);
    RemovedIsTidied(c, d, u, Lockscreen);
    TidiedTransitive(a, b, c);
    TidiedTransitive(a, c, d);
    hide DirsMade;
    if made && !Exists(c, OriginalPath(u, System)) && !Exists(d, OriginalPath(u, Lockscreen)) {
      forall k ensures !Exists(d, OriginalPath(u, k)) {
        assert k == System || k == Lockscreen;
      }
    }
  }

  lemma LaidOutByParts(a: Disk, b: Disk, c: Disk, d: Disk, u: int)
    requires DirsMade(a, b, u, true) && CanBeLaid(a, u)
    requires forall q :: q != OriginalPath(u, System) ==> SameAt(b, c, q)
    requires forall q :: q != OriginalPath(u, Lockscreen) ==> SameAt(c, d, q)
    requires !Exists(c, OriginalPath(u, System)) && !Exists(d, OriginalPath(u, Lockscreen))
    ensures d == LaidOut(a, u)
  {
    var e := LaidOut(a, u);
    MadeIsTidied(a, b, u, true);
    forall p ensures (p in d.dirs <==> p in e.dirs) && (p in d.files <==> p in e.files) {
      assert p != OriginalPath(u, System) ==> SameAt(b, c, p);
      assert p != OriginalPath(u, Lockscreen) ==> SameAt(c, d, p);
      assert p == OriginalPath(u, System) || p == OriginalPath(u, Lockscreen) ==> p !in b.dirs && p !in UserDirs(u);
    }
    forall p | p in d.files ensures d.files[p] == e.files[p] {
      assert SameAt(b, c, p) && SameAt(c, d, p);
    }
    assert d.dirs == e.dirs;
  }

  lemma LaidIsLaidOut(d: Disk, u: int)
    requires Laid(d, u)
    ensures LaidOut(d, u) == d
  {
    assert d.dirs + UserDirs(u) == d.dirs;
    assert !Exists(d, OriginalPath(u, System)) && !Exists(d, OriginalPath(u, Lockscreen));
    assert d.files - {OriginalPath(u, System), OriginalPath(u, Lockscreen)} == d.files;
  }

  lemma LaidOutIsLaid(d: Disk, u: int)
    requires CanBeLaid(d, u)
    ensures Laid(LaidOut(d, u), u)
  {
    forall k: WallpaperType ensures !Exists(LaidOut(d, u), OriginalPath(u, k)) {
      assert k == System || k == Lockscreen;
      assert OriginalPath(u, k) !in UserDirs(u);
    }
  }

  lemma NoneLaidOut(d: Disk)
    ensures AllLaidOut(d, []) == d
  {
  }

  lemma OneMoreLaidOut(d: Disk, users: seq<int>, i: nat)
    requires i < |users|
    ensures AllLaidOut(d, users[..i + 1]) == LaidOut(AllLaidOut(d, users[..i]), users[i])
  {
    assert users[..i + 1][..i] == users[..i];
  }

  lemma DirsMadeOutside(a: Disk, b: Disk, u: int, ok: bool)
    requires DirsMade(a, b, u, ok)
    ensures forall p :: !Inside(p, UserDir(u)) ==> SameAt(a, b, p)
    ensures forall p :: p !in UserDirs(u) ==> SameAt(a, b, p)
  {
    UserDirsInside(u);
  }

  lemma EmptyUserDir(a: Disk, b: Disk, u: int)
    requires IsTree(a)
    requires if Exists(a, UserDir(u)) then DirDeleted(a, b, UserDir(u), true, true) else b == a
    ensures forall p :: Inside(p, UserDir(u)) ==> !Exists(b, p)
    ensures forall p :: !Inside(p, UserDir(u)) ==> SameAt(a, b, p)
    ensures b.dirs <= a.dirs
  {
    var d := UserDir(u);
    if !Exists(a, d) {
      forall c | Exists(a, c) ensures !(c.Child? && c.parent == d) {}
      NothingLeft(a, d);
    }
    forall p | Inside(p, d) ensures !Exists(b, p) {
      assert p == d || Below(p, d);
    }
    forall p | p in b.dirs ensures p in a.dirs {
      assert !Inside(p, d) && SameAt(a, b, p);
    }
  }

  lemma InitFailed(setup: Setup, a: State, d: Disk, u: int)
    requires u >= 0
    requires forall p :: !Inside(p, UserDir(u)) ==> SameAt(a.disk, d, p)
    requires StatePath(u) !in d.files || SameAt(a.disk, d, StatePath(u))
    requires OnlyUserDirsAdded(a.disk, d, u)
    ensures InitOutcome(setup, a, a.(disk := d), u)
  {
  }

  lemma InitByParts(setup: Setup, a: State, d1: Disk, d2: Disk, u: int, ok: bool)
    requires u >= 0 && IsTree(a.disk)
    requires if Exists(a.disk, UserDir(u)) then DirDeleted(a.disk, d1, UserDir(u), true, true) else d1 == a.disk
    requires DirsMade(d1, d2, u, ok)
    ensures InitOutcome(setup, a, a.(disk := d2), u)
    ensures ok ==>
      var b := a.(disk := d2)
                .With(u, System, Rebuild(setup, d2, u, System))
                .With(u, Lockscreen, Rebuild(setup, d2, u, Lockscreen));
      InitOutcome(setup, a, b, u) && InitDone(setup, b, u)
  {
    hide DirDeleted, IsTree, Inside, Rebuild;
    EmptyUserDir(a.disk, d1, u);
    DirsMadeOutside(d1, d2, u, ok);
    UserDirsInside(u);
    forall p | !Inside(p, UserDir(u)) ensures SameAt(a.disk, d2, p) {
      assert SameAt(a.disk, d1, p) && SameAt(d1, d2, p);
    }
    assert SameAt(d1, d2, StatePath(u));
    assert OnlyUserDirsAdded(a.disk, d2, u);
    InitFailed(setup, a, d2, u);
    if ok {
      var b := a.(disk := d2)
                .With(u, System, Rebuild(setup, d2, u, System))
                .With(u, Lockscreen, Rebuild(setup, d2, u, Lockscreen));
      forall k ensures b.Has(u, k) && b.At(u, k) == Rebuild(setup, b.disk, u, k) {
        assert k == System || k == Lockscreen;
      }
      forall p | Inside(p, UserDir(u)) ensures p !in b.disk.files && (p in b.disk.dirs <==> p in UserDirs(u)) {
        assert !Exists(d1, p);
      }
      assert InitDone(setup, b, u);
    }
  }

  lemma InitRefused(setup: Setup, a: State, u: int)
    requires u < 0
    ensures InitOutcome(setup, a, a, u)
  {
  }

  lemma WipeFailed(setup: Setup, a: State, d: Disk, u: int)
    requires u >= 0 && IsTree(a.disk) && DirDeleted(a.disk, d, UserDir(u), true, false)
    ensures InitOutcome(setup, a, a.(disk := d), u)
  {
    DeletedIsShrunk(a.disk, d, UserDir(u), true, false);
    DeletedDirs(a.disk, d, UserDir(u), true, false);
    UserDirsInside(u);
    assert OnlyUserDirsAdded(a.disk, d, u) by {
      forall p | p in UserDirs(u) && p in d.files ensures p in a.disk.files {
        assert !Exists(d, p) || SameAt(a.disk, d, p);
      }
    }
    InitFailed(setup, a, d, u);
  }

  // ----- users come and go -----

  lemma ScaffoldTransitive(a: Disk, b: Disk, c: Disk)
    requires ScaffoldOnly(a, b) && ScaffoldOnly(b, c)
    ensures ScaffoldOnly(a, c)
  {
    forall p | !IsScaffold(p) ensures SameAt(a, c, p) {
      assert SameAt(a, b, p) && SameAt(b, c, p);
    }
    forall p ensures if IsOriginal(p) then !Exists(c, p) || SameAt(a, c, p) else KeptAt(a, c, p) {
      assert if IsOriginal(p) then !Exists(b, p) || SameAt(a, b, p) else KeptAt(a, b, p);
      assert if IsOriginal(p) then !Exists(c, p) || SameAt(b, c, p) else KeptAt(b, c, p);
    }
  }

  lemma ScaffoldRebuild(setup: Setup, a: Disk, b: Disk)
    requires ScaffoldOnly(a, b)
    ensures forall u, t :: Rebuild(setup, a, u, t) == Rebuild(setup, b, u, t)
  {
    forall u, t ensures Rebuild(setup, a, u, t) == Rebuild(setup, b, u, t) {
      SamePictures(setup, a, b, u, t);
    }
  }

  lemma DirsAreScaffold(a: Disk, b: Disk, u: int, ok: bool)
    requires DirsMade(a, b, u, ok)
    ensures ScaffoldOnly(a, b) && DirsMade(a, b, u, false)
  {
    DirsMadeOutside(a, b, u, ok);
  }

  lemma RemovedByParts(a: State, d: Disk, u: int, ok: bool)
    requires u >= 0 && IsTree(a.disk) && DirDeleted(a.disk, d, UserDir(u), true, ok)
    ensures RemoveOutcome(a, a.(disk := d).Without(u, System).Without(u, Lockscreen), u)
    ensures ok ==> UserGone(d, u)
  {
    DeletedIsShrunk(a.disk, d, UserDir(u), true, ok);
    if ok {
      forall p | Inside(p, UserDir(u)) ensures !Exists(d, p) {
        assert p == UserDir(u) || Below(p, UserDir(u));
      }
    }
    var b := a.(disk := d).Without(u, System).Without(u, Lockscreen);
    forall k ensures !b.Has(u, k) {
      assert k == System || k == Lockscreen;
    }
  }

  // ----- which file is served -----

  lemma NegativeRemoved(a: State, u: int)
    requires u < 0
    ensures RemoveOutcome(a, a, u)
  {
  }

  lemma NoSwitch(setup: Setup, a: State, u: int, active: int)
    requires u < 0 || u == a.currentUserId
    ensures SwitchOutcome(setup, a, a, u, active) && SureSwitch(a, a, u, active)
  {
  }

  lemma SameScaffold(d: Disk)
    ensures ScaffoldOnly(d, d)
  {
  }

  lemma SwitchStarted(setup: Setup, a: State, m: State, u: int, active: int)
    requires if Exists(a.disk, UserDir(u)) then m.disk == a.disk else DirsMade(a.disk, m.disk, u, false)
    requires m == a.(disk := m.disk, currentUserId := u, entries := m.entries)
    requires m.entries == if Exists(a.disk, UserDir(u)) then a.entries
                          else a.entries[Slot(u, System) := Rebuild(setup, m.disk, u, System)]
                                        [Slot(u, Lockscreen) := Rebuild(setup, m.disk, u, Lockscreen)]
    ensures Switching(setup, a, m, u, active)
  {
    hide Rebuild, DirsMade;
    TwoSlots(u);
  }

  lemma SwitchFills(setup: Setup, a: State, m: State, u: int, active: int, v: int)
    requires Switching(setup, a, m, u, active) && (v == u || v == active)
    ensures Switching(setup, a, FillBoth(setup, m, v), u, active)
  {
    hide Rebuild, DirsMade, FillBoth;
    FillBothFacts(setup, m, v);
    var b := FillBoth(setup, m, v);
    forall x: Slot
      ensures x in m.entries ==> SameEntry(m, b, x)
      ensures x in b.entries && x !in m.entries ==> x.userId == v && IsRebuilt(setup, b, x)
    {
      if x.userId == v {
        assert x == Slot(v, x.wallpaperType) && b.At(v, x.wallpaperType) == Current(setup, m, v, x.wallpaperType);
      } else {
        assert SameEntry(m, b, x);
      }
    }
  }

  lemma SwitchFinished(setup: Setup, a: State, n: State, u: int, active: int)
    requires !(u < 0 || u == a.currentUserId)
    requires Switching(setup, a, FillBoth(setup, n, u), u, active)
    ensures SwitchOutcome(setup, a, FillBoth(setup, n, u), u, active)
  {
    hide Rebuild, DirsMade, FillBoth;
    FillBothFacts(setup, n, u);
  }

  lemma SwitchHas(setup: Setup, a: State, m: State, n: State, u: int, active: int)
    requires m.entries == if Exists(a.disk, UserDir(u)) then a.entries
                          else a.entries[Slot(u, System) := Rebuild(setup, m.disk, u, System)]
                                        [Slot(u, Lockscreen) := Rebuild(setup, m.disk, u, Lockscreen)]
    requires n == if Speaks(a.disk, active) then FillBoth(setup, m, active) else m
    requires PlaceFor(a.disk, u) && !Exists(a.disk, UserDir(u)) ==> UserDirs(u) <= n.disk.dirs
    ensures SureSwitch(a, FillBoth(setup, n, u), u, active)
  {
    hide Rebuild, FillBoth, Speaks, PlaceFor, UserDirs;
    FillBothFacts(setup, m, active);
    FillBothFacts(setup, n, u);
    var b := FillBoth(setup, n, u);
    forall k: WallpaperType
      ensures b.Has(active, k) <==> active == u || a.Has(active, k) || Speaks(a.disk, active)
    {
      assert b.Has(u, k) && FillBoth(setup, m, active).Has(active, k);
      assert active != u ==> SameEntry(n, b, Slot(active, k));
      assert m.Has(active, k) <==> a.Has(active, k) || (!Exists(a.disk, UserDir(u)) && active == u) by {
        assert k == System || k == Lockscreen;
      }
    }
  }

  lemma SwitchIsScaffold(setup: Setup, a: State, b: State, u: int, active: int)
    requires Switching(setup, a, b, u, active)
    ensures ScaffoldOnly(a.disk, b.disk) && b.disk.files == a.disk.files
  {
    if Exists(a.disk, UserDir(u)) {
      SameScaffold(a.disk);
    } else {
      DirsAreScaffold(a.disk, b.disk, u, false);
    }
  }

  lemma RestartByParts(setup: Setup, a: State, m: State, n: State, d: Disk, active: int)
    requires ScaffoldOnly(a.disk, d) && (forall p :: !Inside(p, UserDir(0)) ==> SameAt(a.disk, d, p))
    requires m.wallpaperId == -1 && m.issued == 0 && m.currentUserId == 0
    requires m.entries == imap[Slot(0, System) := Rebuild(setup, m.disk, 0, System),
                                 Slot(0, Lockscreen) := Rebuild(setup, m.disk, 0, Lockscreen)]
    requires n == m || n == FillBoth(setup, m, active)
    requires forall u, t :: Rebuild(setup, m.disk, u, t) == Rebuild(setup, d, u, t)
    ensures RestartOutcome(setup, a, n.(disk := d), active)
  {
    hide Rebuild, FillBoth, ScaffoldOnly, SameAt, Inside;
    FillBothFacts(setup, m, active);
    forall x: Slot | x in n.entries
      ensures IsRebuilt(setup, n.(disk := d), x) && (x.userId == 0 || x.userId == active)
    {
      assert x == Slot(x.userId, x.wallpaperType);
      if n != m && x.userId == active {
        assert n.At(active, x.wallpaperType) == Current(setup, m, active, x.wallpaperType);
      } else if n != m {
        assert SameEntry(m, n, x);
      }
    }
    forall k ensures n.Has(0, k) {
      assert k == System || k == Lockscreen;
      assert m.Has(0, k);
      assert n != m && active != 0 ==> SameEntry(m, n, Slot(0, k));
      assert n != m && active == 0 ==> n.Has(active, k);
    }
    assert n.Has(0, System) && n.Has(0, Lockscreen);
    assert BothPresent(n.(disk := d), 0);
  }

  lemma RestartHas(setup: Setup, a: State, m: State, n: State, d: Disk, active: int)
    requires m.entries == imap[Slot(0, System) := Rebuild(setup, m.disk, 0, System),
                               Slot(0, Lockscreen) := Rebuild(setup, m.disk, 0, Lockscreen)]
    requires n == if Speaks(a.disk, active) then FillBoth(setup, m, active) else m
    ensures SureRestart(a, n.(disk := d), active)
  {
    hide Rebuild, FillBoth, Speaks;
    FillBothFacts(setup, m, active);
    var b := n.(disk := d);
    forall k: WallpaperType ensures b.Has(active, k) <==> active == 0 || Speaks(a.disk, active) {
      assert m.Has(active, k) <==> active == 0 by { assert k == System || k == Lockscreen; }
      assert b.Has(active, k) <==> n.Has(active, k);
    }
  }

  lemma BootNone(setup: Setup, a: State)
    ensures BootOutcome(setup, a, a, [])
  {
  }

  lemma BootStep(setup: Setup, a: State, m: State, d1: Disk, d2: Disk, users: seq<int>, i: int)
    requires 0 <= i < |users| && BootOutcome(setup, a, m, users[..i])
    requires ScaffoldOnly(m.disk, d1) && ScaffoldOnly(d1, d2) && ScaffoldOnly(m.disk, d2)
    ensures var u := users[i];
            BootOutcome(setup, a, m.(disk := d2, entries := m.entries
              [Slot(u, System) := Rebuild(setup, d1, u, System)]
              [Slot(u, Lockscreen) := Rebuild(setup, d1, u, Lockscreen)]), users[..i + 1])
  {
    hide Rebuild, ScaffoldOnly;
    var u := users[i];
    ScaffoldTransitive(a.disk, m.disk, d2);
    ScaffoldRebuild(setup, m.disk, d2);
    ScaffoldRebuild(setup, d1, d2);
    var b := m.(disk := d2, entries := m.entries
      [Slot(u, System) := Rebuild(setup, d1, u, System)]
      [Slot(u, Lockscreen) := Rebuild(setup, d1, u, Lockscreen)]);
    assert users[..i + 1] == users[..i] + [u];
    forall x: Slot
      ensures x.userId in users[..i + 1] ==> IsRebuilt(setup, b, x)
      ensures x.userId !in users[..i + 1] ==> SameEntry(a, b, x)
    {
      if x.userId == u {
        TwoSlots(u);
      } else {
        assert x.userId in users[..i] ==> IsRebuilt(setup, m, x);
        assert x.userId !in users[..i] ==> SameEntry(a, m, x);
      }
    }
  }
}
