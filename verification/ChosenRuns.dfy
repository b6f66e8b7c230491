/** Along runs whose disk work succeeds, the file that an entry's resource type selects is on disk. */
module ChosenRuns {
  import opened Paths
  import opened FileDeal
  import opened StateFile
  import opened ServiceState
  import opened Places
  import opened EntryFacts
  import opened SlotSteps
  import opened ListSteps
  import opened UserSteps
  import opened ServiceRuns
  import opened Isolation
  import opened IndexRuns
  import StateFileRuns

  ghost predicate ChosenExists(s: State, x: Slot) {
    x in s.entries ==> Exists(s.disk, ChosenFile(s.entries[x]))
  }

  ghost predicate AllChosenExist(s: State) {
    forall x: Slot :: ChosenExists(s, x)
  }

  /** The portrait pictures of the system image are there. */
  ghost predicate BuiltIn(setup: Setup, d: Disk) {
    forall t :: GetWallpaperDefaultPath(setup, t).wallpaperFile in d.files
  }

  /** What this module assumes of a state and shows of the next. */
  ghost predicate Sound(setup: Setup, s: State) {
    WellFormed(s) && AllChosenExist(s) && BuiltIn(setup, s.disk)
  }

  /** Paths outside the wallpaper directory are not touched. */
  ghost predicate OutsideKept(a: Disk, b: Disk) {
    forall p: Path :: p.Outside? ==> SameAt(a, b, p)
  }

  lemma BuiltInKept(setup: Setup, a: Disk, b: Disk)
    requires BuiltIn(setup, a) && OutsideKept(a, b)
    ensures BuiltIn(setup, b)
  {
    forall t ensures GetWallpaperDefaultPath(setup, t).wallpaperFile in b.files {
      DefaultPictures(setup, t);
    }
  }

  lemma RebuiltChosen(setup: Setup, b: State, x: Slot)
    requires BuiltIn(setup, b.disk) && IsRebuilt(setup, b, x)
    ensures ChosenExists(b, x)
  {
  }

  /** The chosen file is a picture, the video or the package of the slot, or it is built in. */
  lemma ChosenPlace(d: WallpaperData, x: Slot)
    requires EntryOk(d, x)
    ensures ChosenFile(d).Outside? || Below(ChosenFile(d), GetWallpaperDir(x.userId, x.wallpaperType))
    ensures !IsScaffold(ChosenFile(d))
  {
    Layout(x.userId, x.wallpaperType);
  }

  lemma KeptChosen(a: State, b: State, x: Slot)
    requires ChosenExists(a, x) && SameEntry(a, b, x)
    requires x in a.entries ==> SameAt(a.disk, b.disk, ChosenFile(a.entries[x]))
    ensures ChosenExists(b, x)
  {
  }

  lemma OthersChosen(setup: Setup, a: State, b: State, z: Slot)
    requires Sound(setup, a) && BuiltIn(setup, b.disk) && OutsideKept(a.disk, b.disk)
    requires Touched(a.disk, b.disk, z.userId, z.wallpaperType) && ChosenExists(b, z)
    requires forall x: Slot :: x != z ==> SameEntry(a, b, x) || IsRebuilt(setup, b, x)
    ensures AllChosenExist(b)
  {
    hide IsTree, IsPortrait, PicturesFor;
    TouchedKeepsOthers(a.disk, b.disk, z);
    forall x: Slot ensures ChosenExists(b, x) {
      if x != z {
        if IsRebuilt(setup, b, x) {
          RebuiltChosen(setup, b, x);
        } else {
          assert ChosenExists(a, x);
          if x in a.entries { ChosenPlace(a.entries[x], x); }
          KeptChosen(a, b, x);
        }
      }
    }
  }

  lemma TouchedOutside(a: Disk, b: Disk, u: int, t: WallpaperType)
    requires Touched(a, b, u, t)
    ensures OutsideKept(a, b)
  {
  }

  lemma SetDoneChosen(setup: Setup, a: State, b: State, z: Slot, res: ResourceType, bytes: Bytes)
    requires Sound(setup, a) && SetDone(setup, a, b, z.userId, z.wallpaperType, res, bytes)
    ensures AllChosenExist(b) && BuiltIn(setup, b.disk)
  {
    hide Below, SameAt, Sound, BuiltIn, Rebuild, GetWallpaperDefaultPath;
    var u, t := z.userId, z.wallpaperType;
    assert z == Slot(u, t);
    Layout(u, t);
    assert Touched(a.disk, b.disk, u, t);
    TouchedOutside(a.disk, b.disk, u, t);
    SoundParts(setup, a);
    BuiltInKept(setup, a.disk, b.disk);
    TwoSlots(u);
    forall x: Slot | x != z ensures SameEntry(a, b, x) || IsRebuilt(setup, b, x) {
      if x.userId == u { assert x == Slot(u, OtherType(t)); }
    }
    assert ChosenFile(b.At(u, t)) == TargetPath(u, t, res);
    OthersChosen(setup, a, b, z);
  }

  lemma SoundParts(setup: Setup, a: State)
    requires Sound(setup, a)
    ensures WellFormed(a) && AllChosenExist(a) && BuiltIn(setup, a.disk)
  {
  }

  lemma ResetDoneChosen(setup: Setup, a: State, b: State, z: Slot)
    requires Sound(setup, a) && ResetDone(setup, a, b, z.userId, z.wallpaperType)
    ensures AllChosenExist(b) && BuiltIn(setup, b.disk)
  {
    hide Below, SameAt, Sound, Rebuild, GetWallpaperDefaultPath;
    var u, t := z.userId, z.wallpaperType;
    assert z == Slot(u, t);
    Layout(u, t);
    assert Touched(a.disk, b.disk, u, t);
    TouchedOutside(a.disk, b.disk, u, t);
    SoundParts(setup, a);
    BuiltInKept(setup, a.disk, b.disk);
    TwoSlots(u);
    forall x: Slot | x != z ensures SameEntry(a, b, x) || IsRebuilt(setup, b, x) {
      if x.userId == u { assert x == Slot(u, OtherType(t)); }
    }
    OthersChosen(setup, a, b, z);
  }

  lemma PortraitInstalled(setup: Setup, a: State, b: State, u: int, t: WallpaperType, items: seq<Item>)
    requires SetAllDone(setup, a, b, u, t, items) && Listed(items, Normal, Port)
    ensures b.Has(u, t) && ChosenFile(b.At(u, t)) == PicturePath(u, t, Normal, Port)
    ensures Exists(b.disk, PicturePath(u, t, Normal, Port))
  {
    hide Below, SameAt, DistinctScreens;
    var ps := b.At(u, t).pictures;
    assert ps.wallpaperFile == ps.At(Normal, Port) == PicturePath(u, t, Normal, Port);
    var i :| 0 <= i < |items| && IsFor(items[i], Normal, Port);
    assert items[i].Target(u, t) == PicturePath(u, t, Normal, Port);
  }

  lemma SetAllDoneChosen(setup: Setup, a: State, b: State, z: Slot, items: seq<Item>)
    requires Sound(setup, a) && SetAllDone(setup, a, b, z.userId, z.wallpaperType, items) && Listed(items, Normal, Port)
    ensures AllChosenExist(b) && BuiltIn(setup, b.disk)
  {
    hide Below, SameAt, Sound, BuiltIn, DistinctScreens, PicturesSet, Listed;
    var u, t := z.userId, z.wallpaperType;
    assert z == Slot(u, t);
    TempsAreTemps(items, u, t);
    assert Touched(a.disk, b.disk, u, t);
    TouchedOutside(a.disk, b.disk, u, t);
    SoundParts(setup, a);
    BuiltInKept(setup, a.disk, b.disk);
    PortraitInstalled(setup, a, b, u, t, items);
    OthersChosen(setup, a, b, z);
  }

  lemma RefusedChosen(setup: Setup, a: State, b: State, u: int)
    requires Sound(setup, a) && Refused(setup, a, b, u)
    ensures AllChosenExist(b) && BuiltIn(setup, b.disk)
  {
    hide IsTree, StateKept, PicturesFor, IsPortrait, BuiltIn;
    assert OutsideKept(a.disk, b.disk);
    BuiltInKept(setup, a.disk, b.disk);
    forall x: Slot ensures ChosenExists(b, x) {
      assert x == Slot(x.userId, x.wallpaperType);
      if x in b.entries && x !in a.entries {
        assert b.Has(u, x.wallpaperType) && !a.Has(u, x.wallpaperType);
        RebuiltChosen(setup, b, x);
      } else {
        assert ChosenExists(a, x);
        if x in a.entries {
          ChosenPlace(a.entries[x], x);
          Layout(x.userId, x.wallpaperType);
          assert !IsTemp(ChosenFile(a.entries[x])) && ChosenFile(a.entries[x]) != StatePath(u) by {
            NotStateFile(ChosenFile(a.entries[x]), x, u);
          }
        }
        KeptChosen(a, b, x);
      }
    }
  }

  lemma NotStateFile(p: Path, x: Slot, u: int)
    requires p.Outside? || Below(p, GetWallpaperDir(x.userId, x.wallpaperType))
    ensures p != StatePath(u) && !IsTemp(p)
  {
    Layout(x.userId, x.wallpaperType);
    Layout(u, System);
    if p == StatePath(u) {
      DistinctUsers(p, u, x.userId);
    }
  }

  lemma OtherUserChosen(a: State, b: State, x: Slot, u: int)
    requires WellFormed(a) && x in a.entries && x.userId != u
    requires forall p :: !Inside(p, UserDir(u)) ==> SameAt(a.disk, b.disk, p)
    ensures SameAt(a.disk, b.disk, ChosenFile(a.entries[x]))
  {
    hide IsTree;
    ChosenPlace(a.entries[x], x);
    Layout(x.userId, x.wallpaperType);
    var p := ChosenFile(a.entries[x]);
    if Inside(p, UserDir(u)) { DistinctUsers(p, u, x.userId); }
  }

  lemma InitChosen(setup: Setup, a: State, b: State, u: int)
    requires Sound(setup, a) && InitOutcome(setup, a, b, u) && u >= 0 && InitDone(setup, b, u)
    ensures AllChosenExist(b) && BuiltIn(setup, b.disk)
  {
    hide IsTree, StateFileFits, PicturesFor, IsPortrait, BuiltIn, EntryOk;
    assert OutsideKept(a.disk, b.disk);
    BuiltInKept(setup, a.disk, b.disk);
    forall x: Slot ensures ChosenExists(b, x) {
      assert x == Slot(x.userId, x.wallpaperType);
      if x.userId == u {
        assert b.Has(u, x.wallpaperType);
        RebuiltChosen(setup, b, x);
      } else {
        assert ChosenExists(a, x);
        if x in a.entries { OtherUserChosen(a, b, x, u); }
        KeptChosen(a, b, x);
      }
    }
  }

  lemma RemoveChosen(setup: Setup, a: State, b: State, u: int)
    requires Sound(setup, a) && RemoveOutcome(a, b, u)
    ensures AllChosenExist(b) && BuiltIn(setup, b.disk)
  {
    hide IsTree, BuiltIn, EntryOk;
    if u >= 0 {
      assert OutsideKept(a.disk, b.disk);
      BuiltInKept(setup, a.disk, b.disk);
      forall x: Slot ensures ChosenExists(b, x) {
        assert x == Slot(x.userId, x.wallpaperType);
        if x.userId == u {
          assert !b.Has(u, x.wallpaperType);
        } else {
          assert ChosenExists(a, x);
          if x in a.entries { OtherUserChosen(a, b, x, u); }
          KeptChosen(a, b, x);
        }
      }
    }
  }

  lemma ScaffoldChosen(setup: Setup, a: State, b: State)
    requires Sound(setup, a) && ScaffoldOnly(a.disk, b.disk)
    requires forall x: Slot :: x in b.entries ==> SameEntry(a, b, x) || IsRebuilt(setup, b, x)
    ensures AllChosenExist(b) && BuiltIn(setup, b.disk)
  {
    hide IsTree, BuiltIn, EntryOk, PicturesFor;
    assert OutsideKept(a.disk, b.disk);
    BuiltInKept(setup, a.disk, b.disk);
    forall x: Slot ensures ChosenExists(b, x) {
      if x in b.entries {
        if IsRebuilt(setup, b, x) {
          RebuiltChosen(setup, b, x);
        } else {
          assert ChosenExists(a, x);
          ChosenPlace(a.entries[x], x);
          KeptChosen(a, b, x);
        }
      }
    }
  }

  lemma FillChosen(setup: Setup, a: State, b: State, u: int)
    requires Sound(setup, a)
    requires forall p :: p != StatePath(u) ==> SameAt(a.disk, b.disk, p)
    requires forall x: Slot :: x in b.entries ==> SameEntry(a, b, x) || IsRebuilt(setup, b, x)
    ensures AllChosenExist(b) && BuiltIn(setup, b.disk)
  {
    hide IsTree, BuiltIn, EntryOk, PicturesFor;
    assert OutsideKept(a.disk, b.disk);
    BuiltInKept(setup, a.disk, b.disk);
    forall x: Slot ensures ChosenExists(b, x) {
      if x in b.entries {
        if IsRebuilt(setup, b, x) {
          RebuiltChosen(setup, b, x);
        } else {
          assert ChosenExists(a, x);
          ChosenPlace(a.entries[x], x);
          NotStateFile(ChosenFile(a.entries[x]), x, u);
          KeptChosen(a, b, x);
        }
      }
    }
  }

  /** A saved state file and filled entries, as before the inner set of a package. */
  lemma SavedChosen(setup: Setup, a: State, m: State, u: int, t: WallpaperType)
    requires Sound(setup, a) && StateSaved(setup, a, m, u, t, RES_PACKAGE) && IsTree(m.disk)
    ensures Sound(setup, m)
  {
    hide FillBoth, NewText, IsTree, Rebuild, BuiltIn, EntryOk;
    FillBothFacts(setup, a, u);
    var f := FillBoth(setup, a, u);
    assert forall p :: p != StatePath(u) ==> SameAt(a.disk, m.disk, p);
    RebuiltElsewhere(setup, a.disk, m.disk, u);
    assert m.entries == f.entries;
    forall x: Slot | x in m.entries ensures SameEntry(a, m, x) || IsRebuilt(setup, m, x) {
      assert x == Slot(x.userId, x.wallpaperType);
      if x.userId == u {
        assert f.At(u, x.wallpaperType) == Current(setup, a, u, x.wallpaperType);
      } else {
        assert SameEntry(a, f, x);
      }
    }
    FillChosen(setup, a, m, u);
    FilledWellFormed(setup, a, m.disk, u);
  }

  lemma PackageChosen(setup: Setup, n: State, b: State, z: Slot, m: State, bytes: Bytes)
    requires SetDone(setup, m, n, z.userId, z.wallpaperType, RES_PACKAGE, bytes)
    requires AllChosenExist(n) && BuiltIn(setup, n.disk) && b.disk == n.disk
    requires forall x: Slot :: x != z ==> SameEntry(n, b, x)
    requires z in b.entries && b.entries[z].resourceType == RES_PACKAGE && EntryOk(b.entries[z], z)
    ensures AllChosenExist(b) && BuiltIn(setup, b.disk)
  {
    hide BuiltIn, Rebuild, SameAt, Below, NewText;
    assert ChosenFile(b.entries[z]) == TargetPath(z.userId, z.wallpaperType, RES_PACKAGE);
    assert Exists(n.disk, TargetPath(z.userId, z.wallpaperType, RES_PACKAGE));
    forall x: Slot ensures ChosenExists(b, x) {
      if x != z { assert ChosenExists(n, x) && SameEntry(n, b, x); }
    }
  }

  /** The inner set of a package request stopped before it touched the disk: it was refused, its buffer was
      empty, or there was no memory for it. */
  predicate InnerStopped(caller: Caller, content: Bytes, wallpaperType: int, length: int, code: ErrorCode) {
    SetPrecheck(caller.userAllowed, wallpaperType, length, RES_PACKAGE) != NO_ERROR || content == [] ||
    code == E_NO_MEMORY
  }

  lemma InnerUnchanged(setup: Setup, m: State, n: State, u: int, caller: Caller, content: Bytes, wallpaperType: int,
                       length: int, code: ErrorCode)
    requires SetOutcome(setup, m, n, u, caller.userAllowed, content, wallpaperType, length, RES_PACKAGE, code)
    requires InnerStopped(caller, content, wallpaperType, length, code)
    ensures n == m
  {
  }

  /** What a package request publishes after its inner set stopped: the disk differs in the state file only,
      and the entry selects the package, whether it is there or not. */
  lemma StoppedPackage(setup: Setup, a: State, b: State, u: int, caller: Caller, content: Bytes, wallpaperType: int,
                       length: int, code: ErrorCode)
    requires WellFormed(a) && IsTree(b.disk) && b.issued > a.issued
    requires CustomOutcome(setup, a, b, u, caller, content, wallpaperType, length, code)
    requires InnerStopped(caller, content, wallpaperType, length, code)
    ensures forall p :: p != StatePath(u) ==> SameAt(a.disk, b.disk, p)
    ensures b.Has(u, TypeOf(wallpaperType)) &&
            ChosenFile(b.At(u, TypeOf(wallpaperType))) == PackagePath(u, TypeOf(wallpaperType))
  {
    hide SetOutcome, CustomOutcome, WithPackage, NewText, FillBoth, Rebuild, WellFormed, EntryOk, InnerStopped;
    var t := TypeOf(wallpaperType);
    CustomWellFormed(setup, a, b, u, caller, content, wallpaperType, length, code);
    var m := StoppedAfterSaving(setup, a, b, u, caller, content, wallpaperType, length, code);
    PackageFacts(setup, a, m, u, t);
    EntryOf(b, Slot(u, t));
    PackageSelected(b.At(u, t), Slot(u, t));
    SavedElsewhere(setup, a, m, u, t);
  }

  lemma SavedElsewhere(setup: Setup, a: State, m: State, u: int, t: WallpaperType)
    requires StateSaved(setup, a, m, u, t, RES_PACKAGE)
    ensures forall p :: p != StatePath(u) ==> SameAt(a.disk, m.disk, p)
  {
    hide NewText, FillBoth;
  }

  lemma StoppedAfterSaving(setup: Setup, a: State, b: State, u: int, caller: Caller, content: Bytes, wallpaperType: int,
                           length: int, code: ErrorCode) returns (m: State)
    requires b.issued > a.issued && CustomOutcome(setup, a, b, u, caller, content, wallpaperType, length, code)
    requires InnerStopped(caller, content, wallpaperType, length, code)
    ensures StateSaved(setup, a, m, u, TypeOf(wallpaperType), RES_PACKAGE)
    ensures b == WithPackage(setup, a, m, u, TypeOf(wallpaperType))
  {
    hide SetOutcome, WithPackage, StateSaved, InnerStopped;
    var n;
    m, n := PublishedParts(setup, a, b, u, caller, content, wallpaperType, length, code);
    InnerUnchanged(setup, m, n, u, caller, content, wallpaperType, length, code);
  }

  lemma PackageSelected(d: WallpaperData, x: Slot)
    requires EntryOk(d, x) && d.resourceType == RES_PACKAGE
    ensures ChosenFile(d) == PackagePath(x.userId, x.wallpaperType)
  {
  }

  /** A package request that published its entry although its inner set stopped leaves a file for that entry
      if and only if the package was there before. */
  lemma StoppedPackageChosenExactly(setup: Setup, a: State, b: State, u: int, caller: Caller, content: Bytes,
                                    wallpaperType: int, length: int, code: ErrorCode)
    requires WellFormed(a) && IsTree(b.disk) && b.issued > a.issued
    requires CustomOutcome(setup, a, b, u, caller, content, wallpaperType, length, code)
    requires InnerStopped(caller, content, wallpaperType, length, code)
    ensures ChosenExists(b, Slot(u, TypeOf(wallpaperType))) <==> Exists(a.disk, PackagePath(u, TypeOf(wallpaperType)))
  {
    hide CustomOutcome, InnerStopped, WellFormed;
    StoppedPackage(setup, a, b, u, caller, content, wallpaperType, length, code);
    Layout(u, TypeOf(wallpaperType));
    assert SameAt(a.disk, b.disk, PackagePath(u, TypeOf(wallpaperType)));
  }

  /** With every other entry kept or rebuilt, only the slot of the request can select a missing file. */
  lemma OnlyItsChosen(setup: Setup, a: State, b: State, z: Slot)
    requires Sound(setup, a) && OthersKept(setup, a, b, z) && OutsideKept(a.disk, b.disk)
    ensures BuiltIn(setup, b.disk) && (AllChosenExist(b) <==> ChosenExists(b, z))
  {
    hide IsTree, IsPortrait, PicturesFor, BuiltIn;
    BuiltInKept(setup, a.disk, b.disk);
    if ChosenExists(b, z) {
      forall x: Slot ensures ChosenExists(b, x) {
        if x != z {
          if IsRebuilt(setup, b, x) {
            RebuiltChosen(setup, b, x);
          } else {
            assert ChosenExists(a, x);
            if x in a.entries { ChosenPlace(a.entries[x], x); }
            KeptChosen(a, b, x);
          }
        }
      }
    }
  }

  /** So the whole state stays sound if and only if the package was there. */
  lemma StoppedPackageSoundExactly(setup: Setup, a: State, q: Request, code: ErrorCode, b: State)
    requires Sound(setup, a) && q.Custom? && Step(setup, a, q, code, b) && b.issued > a.issued
    requires InnerStopped(q.caller, q.content, q.wallpaperType, q.length, code)
    ensures Sound(setup, b) <==> Exists(a.disk, PackagePath(q.userId, TypeOf(q.wallpaperType)))
  {
    StepKeepsWellFormed(setup, a, q, code, b);
    RequestKeepsOthers(setup, a, q, code, b);
    hide CustomOutcome, InnerStopped, WellFormed, OthersKept, BuiltIn, AllChosenExist, IsTree;
    var u, t := q.userId, TypeOf(q.wallpaperType);
    StoppedPackage(setup, a, b, u, q.caller, q.content, q.wallpaperType, q.length, code);
    StoppedPackageChosenExactly(setup, a, b, u, q.caller, q.content, q.wallpaperType, q.length, code);
    assert OutsideKept(a.disk, b.disk);
    OnlyItsChosen(setup, a, b, Slot(u, t));
  }

  /** A package request whose slot has no directory publishes a package that is not there, whatever fails. */
  lemma NoDirectoryNoPackage(setup: Setup, a: State, b: State, u: int, caller: Caller, content: Bytes,
                             wallpaperType: int, length: int, code: ErrorCode)
    requires WellFormed(a) && IsTree(b.disk) && b.issued > a.issued
    requires CustomOutcome(setup, a, b, u, caller, content, wallpaperType, length, code)
    requires GetWallpaperDir(u, TypeOf(wallpaperType)) !in a.disk.dirs
    ensures code != NO_ERROR && !ChosenExists(b, Slot(u, TypeOf(wallpaperType)))
  {
    hide SetOutcome, CustomOutcome, WithPackage, NewText, StateSaved, FillBoth, Rebuild, WellFormed, EntryOk;
    var t := TypeOf(wallpaperType);
    PublishedChecks(setup, a, b, u, caller, content, wallpaperType, length, code);
    CustomWellFormed(setup, a, b, u, caller, content, wallpaperType, length, code);
    var m, n := PublishedParts(setup, a, b, u, caller, content, wallpaperType, length, code);
    PackageFacts(setup, a, n, u, t);
    EntryOf(b, Slot(u, t));
    PackageSelected(b.At(u, t), Slot(u, t));
    SavedElsewhere(setup, a, m, u, t);
    DirStaysMissing(setup, m, n, u, caller.userAllowed, content, wallpaperType, length, code) by {
      NotState(u, t);
      assert SameAt(a.disk, m.disk, GetWallpaperDir(u, t));
    }
  }

  lemma NotState(u: int, t: WallpaperType)
    ensures GetWallpaperDir(u, t) != StatePath(u)
  {
  }

  lemma PublishedParts(setup: Setup, a: State, b: State, u: int, caller: Caller, content: Bytes, wallpaperType: int,
                       length: int, code: ErrorCode) returns (m: State, n: State)
    requires b.issued > a.issued && CustomOutcome(setup, a, b, u, caller, content, wallpaperType, length, code)
    ensures StateSaved(setup, a, m, u, TypeOf(wallpaperType), RES_PACKAGE)
    ensures SetOutcome(setup, m, n, u, caller.userAllowed, content, wallpaperType, length, RES_PACKAGE, code)
    ensures b == WithPackage(setup, a, n, u, TypeOf(wallpaperType))
  {
    PublishedChecks(setup, a, b, u, caller, content, wallpaperType, length, code);
    hide Refused, SetOutcome, WithPackage, NewText, StateSaved, FillBoth, Rebuild;
    var t := TypeOf(wallpaperType);
    assert !Refused(setup, a, b, u) by { StateFileRuns.RefusedIssuesNone(setup, a, b, u); }
    m, n :| StateSaved(setup, a, m, u, t, RES_PACKAGE) && IsTree(m.disk) &&
            SetOutcome(setup, m, n, u, caller.userAllowed, content, wallpaperType, length, RES_PACKAGE, code) &&
            b == WithPackage(setup, a, n, u, t);
  }

  lemma DirStaysMissing(setup: Setup, m: State, n: State, u: int, allowed: bool, content: Bytes, wallpaperType: int,
                        length: int, code: ErrorCode)
    requires SetOutcome(setup, m, n, u, allowed, content, wallpaperType, length, RES_PACKAGE, code) && IsTree(n.disk)
    requires GetWallpaperDir(u, TypeOf(wallpaperType)) !in m.disk.dirs
    ensures code != NO_ERROR && !Exists(n.disk, PackagePath(u, TypeOf(wallpaperType)))
  {
    hide NewText, StateKept, Rebuild, Wiped;
    var t := TypeOf(wallpaperType);
    NotBelowItself(GetWallpaperDir(u, t));
    NotState(u, t);
    assert PackagePath(u, t).parent == GetWallpaperDir(u, t) && !IsTemp(GetWallpaperDir(u, t));
    assert n != m ==> SameAt(m.disk, n.disk, GetWallpaperDir(u, t));
  }

  /** It happens: a package request with an invalid length is refused, and the home screen of the user
      selects a package that is not there. */
  lemma PackageLost(setup: Setup) returns (a: State, q: Request, after: State)
    ensures Sound(setup, a) && a.Has(100, System) && a.Has(100, Lockscreen)
    ensures q.Custom? && q.userId == 100 && TypeOf(q.wallpaperType) == System
    ensures SureStep(setup, a, q, E_PARAMETERS_INVALID, after)
    ensures forall code, b :: SureStep(setup, a, q, code, b) ==>
              code == E_PARAMETERS_INVALID && !ChosenExists(b, Slot(100, System))
  {
    var d := Disk({Base, UserDir(100), GetWallpaperDir(100, System), GetWallpaperDir(100, Lockscreen)},
                  map[BuiltInFile(setup, System) := "home", BuiltInFile(setup, Lockscreen) := "lock"]);
    DefaultPictures(setup, System);
    DefaultPictures(setup, Lockscreen);
    a := State(d, imap[Slot(100, System) := Rebuild(setup, d, 100, System),
                       Slot(100, Lockscreen) := Rebuild(setup, d, 100, Lockscreen)], -1, 0, 100);
    q := Request.Custom(100, Caller(true, false, true, true, true), "", 0, 0);
    StartIsSound(setup, a);
    TwoSlotsReady(d);
    assert !Exists(d, PackagePath(100, System)) by { PackageElsewhere(d); }
    hide GetWallpaperDefaultPath, Rebuild, RequestSure, Step, Sound;
    SoundIsWellFormed(setup, a);
    after := RefusedPackageStep(setup, a, q);
    forall code, b | SureStep(setup, a, q, code, b)
      ensures code == E_PARAMETERS_INVALID && !ChosenExists(b, Slot(100, System))
    {
      NoLengthNoPackage(setup, a, q, code, b);
    }
  }

  /** A package request whose inner set is refused still goes through the rest of its steps. */
  lemma RefusedPackageStep(setup: Setup, a: State, q: Request) returns (b: State)
    requires WellFormed(a) && q.Custom? && CustomPrecheck(q.caller, q.wallpaperType) == NO_ERROR && q.caller.sceneBoard
    requires RequestSure(true, a.disk, q.userId, TypeOf(q.wallpaperType)) && UserDir(q.userId) in a.disk.dirs
    requires SetPrecheck(q.caller.userAllowed, q.wallpaperType, q.length, RES_PACKAGE) != NO_ERROR
    ensures SureStep(setup, a, q, AnswerTo(q), b)
  {
    hide WellFormed, NewText, FillBoth, WithPackage, Rebuild, IsTree;
    var u, t := q.userId, TypeOf(q.wallpaperType);
    var text := Overwrite(Content(a.disk, StatePath(u)), NewText(setup, a, u, t, RES_PACKAGE));
    var m := FillBoth(setup, a, u).(disk := a.disk.(files := a.disk.files[StatePath(u) := text]));
    WellFormedTree(a);
    StateFileAdded(a.disk, u, text);
    FillBothFacts(setup, a, u);
    b := WithPackage(setup, a, m, u, t);
    PackageFacts(setup, a, m, u, t);
    assert StateSaved(setup, a, m, u, t, RES_PACKAGE);
    assert SetOutcome(setup, m, m, u, q.caller.userAllowed, q.content, q.wallpaperType, q.length, RES_PACKAGE,
                      AnswerTo(q));
    hide StateSaved, SetOutcome, RequestSure, Refused;
  }

  lemma StateFileAdded(d: Disk, u: int, text: Bytes)
    requires IsTree(d) && UserDir(u) in d.dirs && StatePath(u) !in d.dirs
    ensures IsTree(d.(files := d.files[StatePath(u) := text]))
  {
  }

  /** A package request without a length publishes a package that is not there. */
  lemma NoLengthNoPackage(setup: Setup, a: State, q: Request, code: ErrorCode, b: State)
    requires WellFormed(a) && RequestSure(true, a.disk, 100, System) && SureStep(setup, a, q, code, b)
    requires q == Request.Custom(100, Caller(true, false, true, true, true), "", 0, 0)
    requires !Exists(a.disk, PackagePath(100, System))
    ensures code == E_PARAMETERS_INVALID && !ChosenExists(b, Slot(100, System))
  {
    hide GetWallpaperDefaultPath, Rebuild, RequestSure, CustomOutcome, WellFormed, ChosenExists;
    StoppedPackageChosenExactly(setup, a, b, 100, q.caller, "", 0, 0, code);
  }

  lemma SoundIsWellFormed(setup: Setup, a: State)
    requires Sound(setup, a)
    ensures WellFormed(a)
  {
  }

  lemma PackageElsewhere(d: Disk)
    requires d.dirs == {Base, UserDir(100), GetWallpaperDir(100, System), GetWallpaperDir(100, Lockscreen)}
    requires forall p :: p in d.files ==> p.Outside?
    ensures !Exists(d, PackagePath(100, System))
  {
    assert PackagePath(100, System).parent == GetWallpaperDir(100, System);
    NotBelowItself(GetWallpaperDir(100, System));
    assert Depth(GetWallpaperDir(100, System)) == 2 && Depth(PackagePath(100, System)) == 3 by {
      assert Depth(UserDir(100)) == 1;
    }
  }

  function BuiltInFile(setup: Setup, t: WallpaperType): Path {
    GetWallpaperDefaultPath(setup, t).wallpaperFile
  }

  lemma StartIsSound(setup: Setup, a: State)
    requires a.disk == Disk({Base, UserDir(100), GetWallpaperDir(100, System), GetWallpaperDir(100, Lockscreen)},
                            map[BuiltInFile(setup, System) := "home", BuiltInFile(setup, Lockscreen) := "lock"])
    requires a.entries == imap[Slot(100, System) := Rebuild(setup, a.disk, 100, System),
                               Slot(100, Lockscreen) := Rebuild(setup, a.disk, 100, Lockscreen)]
    requires a.wallpaperId == -1 && a.issued == 0
    ensures Sound(setup, a)
  {
    DefaultPictures(setup, System);
    DefaultPictures(setup, Lockscreen);
    assert UserDir(100).parent == Base && GetWallpaperDir(100, System).parent == UserDir(100);
    assert GetWallpaperDir(100, Lockscreen).parent == UserDir(100);
    assert IsTree(a.disk);
    hide IsTree;
    forall t ensures GetWallpaperDefaultPath(setup, t).wallpaperFile in a.disk.files {
      assert t == System || t == Lockscreen;
    }
    assert BuiltIn(setup, a.disk);
    RebuildIsFresh(setup, a.disk, 100, System);
    RebuildIsFresh(setup, a.disk, 100, Lockscreen);
    hide Rebuild, BuiltIn, EntryOk;
    forall x: Slot ensures ChosenExists(a, x) && (x in a.entries ==> EntryOk(a.entries[x], x)) {
      if x in a.entries {
        assert x == Slot(100, System) || x == Slot(100, Lockscreen);
        assert IsRebuilt(setup, a, x);
        RebuiltChosen(setup, a, x);
        RebuildIsFresh(setup, a.disk, 100, x.wallpaperType);
      }
    }
  }

  /** The request ran to its end, or was refused before it changed the user's pictures. A package request
      whose inner set stopped counts if the package was there; a list counts if it has a normal portrait. */
  ghost predicate DiskWorkSucceeded(setup: Setup, a: State, q: Request, code: ErrorCode, b: State) {
    match q
    case Set(u, _, _, _, _, _) => code == NO_ERROR || Refused(setup, a, b, u)
    case Reset(u, _, _) => code == NO_ERROR || Refused(setup, a, b, u)
    case SetAll(u, _, items, _, _) => if code == NO_ERROR then Listed(items, Normal, Port) else Refused(setup, a, b, u)
    case Custom(u, caller, content, t, length) =>
      code == NO_ERROR || b.issued == a.issued ||
      (InnerStopped(caller, content, t, length, code) && Exists(a.disk, PackagePath(u, TypeOf(t))))
    case InitUser(u) => u < 0 || InitDone(setup, b, u) || Refused(setup, a, b, u)
    case Lookup(u, t, _) => a.Has(u, t) || u < 0 || InitDone(setup, b, u) || Refused(setup, a, b, u)
    case _ => true
  }

  lemma CustomChosen(setup: Setup, a: State, b: State, u: int, caller: Caller, content: Bytes, wallpaperType: int,
                     length: int, code: ErrorCode)
    requires Sound(setup, a) && CustomOutcome(setup, a, b, u, caller, content, wallpaperType, length, code)
    requires IsTree(b.disk)
    requires code == NO_ERROR || b.issued == a.issued
    ensures AllChosenExist(b) && BuiltIn(setup, b.disk)
  {
    hide Refused, SetDone, WithPackage, NewText, FillBoth, Rebuild, Sound, BuiltIn, AllChosenExist, Fill, Spoiled,
      EntryOk, IsTree;
    var t := TypeOf(wallpaperType);
    var z := Slot(u, t);
    SoundParts(setup, a);
    if CustomPrecheck(caller, wallpaperType) == NO_ERROR {
      if !caller.sceneBoard {
        FillFacts(setup, a, u, t);
        FillChosen(setup, a, b, u);
      } else if Refused(setup, a, b, u) {
        RefusedChosen(setup, a, b, u);
      } else {
        var m, n :| StateSaved(setup, a, m, u, t, RES_PACKAGE) && IsTree(m.disk) &&
                    SetOutcome(setup, m, n, u, caller.userAllowed, content, wallpaperType, length, RES_PACKAGE, code) &&
                    b == WithPackage(setup, a, n, u, t);
        PublishedIssues(setup, a, m, n, u, caller.userAllowed, content, wallpaperType, length, code);
        var bytes := Overwrite(Content(m.disk, TMP), Buffered(content, length));
        SavedChosen(setup, a, m, u, t);
        SetDoneChosen(setup, m, n, z, RES_PACKAGE, bytes);
        PackageFacts(setup, a, n, u, t);
        CustomWellFormed(setup, a, b, u, caller, content, wallpaperType, length, code);
        EntryOf(b, z);
        PackageChosen(setup, n, b, z, m, bytes);
      }
    }
  }

  lemma PublishedIssues(setup: Setup, a: State, m: State, n: State, u: int, allowed: bool, content: Bytes,
                        wallpaperType: int, length: int, code: ErrorCode)
    requires StateSaved(setup, a, m, u, TypeOf(wallpaperType), RES_PACKAGE)
    requires SetOutcome(setup, m, n, u, allowed, content, wallpaperType, length, RES_PACKAGE, code)
    ensures WithPackage(setup, a, n, u, TypeOf(wallpaperType)).issued > a.issued
  {
    hide NewText, FillBoth, SetOutcome, WithPackage, Rebuild;
    FillBothFacts(setup, a, u);
    SetIssues(setup, m, n, u, allowed, content, wallpaperType, length, RES_PACKAGE, code);
    PackageFacts(setup, a, n, u, TypeOf(wallpaperType));
  }

  lemma EntryOf(s: State, z: Slot)
    requires WellFormed(s) && z in s.entries
    ensures EntryOk(s.entries[z], z)
  {
  }

  lemma StepKeepsChosen(setup: Setup, a: State, q: Request, code: ErrorCode, b: State)
    requires Sound(setup, a) && Step(setup, a, q, code, b) && DiskWorkSucceeded(setup, a, q, code, b)
    ensures Sound(setup, b)
  {
    hide CustomOutcome, Refused, Spoiled, Wiped, SetDone, ResetDone, SetAllDone, InitOutcome, InitDone, RemoveOutcome,
      IsTree, ScaffoldOnly, Rebuild, Listed, BuiltIn, AllChosenExist, WellFormed, InnerStopped;
    StepKeepsWellFormed(setup, a, q, code, b);
    match q
    case Set(u, allowed, content, t, length, res) =>
      if Refused(setup, a, b, u) {
        RefusedChosen(setup, a, b, u);
      } else {
        SetDoneChosen(setup, a, b, Slot(u, TypeOf(t)), res, Overwrite(Content(a.disk, TMP), Buffered(content, length)));
      }
    case Custom(u, caller, content, t, length) =>
      if code == NO_ERROR || b.issued == a.issued {
        CustomChosen(setup, a, b, u, caller, content, t, length, code);
      } else {
        IdsOnlyGrow(setup, a, b, u, caller, content, t, length, code);
        StoppedPackageSoundExactly(setup, a, q, code, b);
      }
    case Reset(u, caller, t) =>
      if Refused(setup, a, b, u) {
        RefusedChosen(setup, a, b, u);
      } else {
        ResetDoneChosen(setup, a, b, Slot(u, TypeOf(t)));
      }
    case SetAll(u, caller, items, fdCount, t) =>
      if Refused(setup, a, b, u) {
        RefusedChosen(setup, a, b, u);
      } else {
        SetAllDoneChosen(setup, a, b, Slot(u, TypeOf(t)), items);
      }
    case Lookup(u, t, _) => if !a.Has(u, t) { InitStepChosen(setup, a, b, u); }
    case InitUser(u) => InitStepChosen(setup, a, b, u);
    case RemoveUser(u) => RemoveChosen(setup, a, b, u);
    case SwitchUser(u, active) =>
      if b != a {
        SwitchIsScaffold(setup, a, b, u, active);
        ScaffoldChosen(setup, a, b);
      }
    case Restart(active) => ScaffoldChosen(setup, a, b);
    case Boot(users) =>
      forall x: Slot | x in b.entries ensures SameEntry(a, b, x) || IsRebuilt(setup, b, x) {
        assert x.userId in users || x.userId !in users;
      }
      ScaffoldChosen(setup, a, b);
  }

  lemma IdsOnlyGrow(setup: Setup, a: State, b: State, u: int, caller: Caller, content: Bytes, wallpaperType: int,
                    length: int, code: ErrorCode)
    requires CustomOutcome(setup, a, b, u, caller, content, wallpaperType, length, code)
    ensures a.issued <= b.issued
  {
    hide Refused, SetOutcome, WithPackage, NewText, FillBoth, Rebuild, StateSaved;
    var t := TypeOf(wallpaperType);
    FillFacts(setup, a, u, t);
    if b.issued != a.issued {
      assert !Refused(setup, a, b, u) by { StateFileRuns.RefusedIssuesNone(setup, a, b, u); }
      var m, n :| StateSaved(setup, a, m, u, t, RES_PACKAGE) && IsTree(m.disk) &&
                  SetOutcome(setup, m, n, u, caller.userAllowed, content, wallpaperType, length, RES_PACKAGE, code) &&
                  b == WithPackage(setup, a, n, u, t);
      PublishedIssues(setup, a, m, n, u, caller.userAllowed, content, wallpaperType, length, code);
    }
  }

  lemma InitStepChosen(setup: Setup, a: State, b: State, u: int)
    requires Sound(setup, a) && InitOutcome(setup, a, b, u)
    requires u < 0 || InitDone(setup, b, u) || Refused(setup, a, b, u)
    ensures AllChosenExist(b) && BuiltIn(setup, b.disk)
  {
    hide Refused, InitDone, AllChosenExist, BuiltIn, WellFormed;
    if u >= 0 {
      if Refused(setup, a, b, u) {
        RefusedChosen(setup, a, b, u);
      } else {
        InitChosen(setup, a, b, u);
      }
    }
  }

  // ----- what a reliable system does to the chosen files -----

  /** Which requests keep every chosen file there, told from the state and the request. A package request
      must succeed, stop before its entry is published, or find the package there. A list must have a normal
      portrait, or the entry show a built-in file that is there; one that repeats a screen must move the
      chosen file before the repeat, unless that file is built in. */
  ghost predicate KeepsChosen(a: State, q: Request)
    requires ForSlot(q)
  {
    var (u, t) := (q.userId, TypeOf(q.wallpaperType));
    match q
    case Custom(_, caller, content, wallpaperType, length) =>
      AnswerTo(q) == NO_ERROR || CustomPrecheck(caller, wallpaperType) != NO_ERROR || !caller.sceneBoard ||
      Exists(a.disk, PackagePath(u, t))
    case SetAll(_, caller, items, fdCount, wallpaperType) =>
      if SetAllPrecheck(caller, items, fdCount) != NO_ERROR || ListAnswer(items, wallpaperType) != NO_ERROR then
        true
      else if !a.Has(u, t) then
        true
      else if DistinctScreens(items) then
        Listed(items, Normal, Port) ||
        (a.At(u, t).pictures.wallpaperFile.Outside? && Exists(a.disk, a.At(u, t).pictures.wallpaperFile))
      else
        ChosenFile(a.At(u, t)).Outside? || IsTargetOf(BeforeRepeat(items), u, t, ChosenFile(a.At(u, t)))
    case _ => true
  }

  lemma ListedChosenExactly(setup: Setup, a: State, b: State, u: int, t: WallpaperType, items: seq<Item>)
    requires Sound(setup, a) && BuiltIn(setup, b.disk) && OutsideKept(a.disk, b.disk)
    requires SetAllDone(setup, a, b, u, t, items) && HoldsOnly(b.disk, u, t, items)
    requires !a.Has(u, t) && !Listed(items, Normal, Port) ==>
               b.At(u, t).pictures.wallpaperFile == GetWallpaperDefaultPath(setup, t).wallpaperFile
    ensures ChosenExists(b, Slot(u, t)) <==>
            !a.Has(u, t) || Listed(items, Normal, Port) ||
            (a.At(u, t).pictures.wallpaperFile.Outside? && Exists(a.disk, a.At(u, t).pictures.wallpaperFile))
  {
    if Listed(items, Normal, Port) {
      PortraitInstalled(setup, a, b, u, t, items);
    } else {
      hide Below, SameAt, DistinctScreens, HoldsOnly, Sound;
      var portrait :| IsPortrait(portrait, Slot(u, t)) &&
                      (a.Has(u, t) ==> portrait == a.At(u, t).pictures.wallpaperFile) &&
                      PicturesSet(Only(portrait), b.At(u, t).pictures, u, t, items);
      PortraitUnlisted(Only(portrait), b.At(u, t).pictures, u, t, items);
      ListedExists(setup, a, b, u, t, items);
      if a.Has(u, t) && portrait.Outside? { OutsideAt(a.disk, b.disk, portrait); }
    }
  }

  lemma OutsideAt(a: Disk, b: Disk, p: Path)
    requires OutsideKept(a, b) && p.Outside?
    ensures Exists(a, p) <==> Exists(b, p)
  {
    assert SameAt(a, b, p);
  }

  lemma RepeatedChosenExactly(setup: Setup, a: State, b: State, u: int, t: WallpaperType, items: seq<Item>, i: nat)
    requires Sound(setup, a) && BuiltIn(setup, b.disk) && OutsideKept(a.disk, b.disk) && WellFormed(b)
    requires Spoiled(setup, a, b, u, t) && b.Has(u, t)
    requires !a.Has(u, t) ==> b.At(u, t).pictures == GetWallpaperDefaultPath(setup, t)
    requires RepeatsAt(items, i) && PicturesLeft(b.disk, u, t, items[..i])
    ensures ChosenExists(b, Slot(u, t)) <==>
            !a.Has(u, t) || ChosenFile(a.At(u, t)).Outside? ||
            IsTargetOf(BeforeRepeat(items), u, t, ChosenFile(a.At(u, t)))
  {
    FirstRepeat(items, i);
    EntryOf(b, Slot(u, t));
    ChosenPlace(b.At(u, t), Slot(u, t));
    hide RepeatsAt, BeforeRepeat, StateKept, SameAt, IsTargetOf, Rebuild, GetWallpaperDefaultPath, EntryOk;
    var p := ChosenFile(b.At(u, t));
    if a.Has(u, t) {
      assert b.At(u, t) == a.At(u, t) && ChosenExists(a, Slot(u, t));
      if p.Outside? { OutsideAt(a.disk, b.disk, p); }
    } else {
      assert IsFresh(b.At(u, t), Slot(u, t));
    }
  }

  lemma SetAllChosenExactly(setup: Setup, a: State, q: Request, code: ErrorCode, b: State)
    requires Sound(setup, a) && SureStep(setup, a, q, code, b) && q.SetAll?
    requires RequestSure(true, a.disk, q.userId, TypeOf(q.wallpaperType))
    ensures Sound(setup, b) <==> KeepsChosen(a, q)
  {
    var u, t := q.userId, TypeOf(q.wallpaperType);
    var z := Slot(u, t);
    StepKeepsWellFormed(setup, a, q, code, b);
    RequestKeepsOthers(setup, a, q, code, b);
    hide SetAllSure, WellFormed, AllChosenExist, BuiltIn, OthersKept, OutsideKept, Refused, Spoiled, SetAllDone,
      HoldsOnly, Listed, ListAnswer, NoTempLeft, DistinctScreens, OnlyTemps, TempsWritten, RequestSure, IsTree,
      RepeatsAt, PicturesLeft, BeforeRepeat, IsTargetOf, ChosenExists;
    if SetAllPrecheck(q.caller, q.items, q.fdCount) == NO_ERROR {
      if ListAnswer(q.items, q.wallpaperType) != NO_ERROR {
        SureRefusal(setup, a, b, u, t, q.items, q.wallpaperType, code);
        RefusedChosen(setup, a, b, u);
      } else {
        if DistinctScreens(q.items) {
          SureSuccess(setup, a, b, u, t, q.items, q.wallpaperType);
          ListKeepsOutside(setup, a, b, u, t, q.items);
          OnlyItsChosen(setup, a, b, z);
          ListedChosenExactly(setup, a, b, u, t, q.items);
        } else {
          var i := SureRepeat(setup, a, b, u, t, q.items, q.wallpaperType, code);
          ListKeepsOutside(setup, a, b, u, t, q.items);
          OnlyItsChosen(setup, a, b, z);
          RepeatedChosenExactly(setup, a, b, u, t, q.items, i);
        }
      }
    }
  }

  lemma ListKeepsOutside(setup: Setup, a: State, b: State, u: int, t: WallpaperType, items: seq<Item>)
    requires SetAllDone(setup, a, b, u, t, items) || Spoiled(setup, a, b, u, t)
    ensures OutsideKept(a.disk, b.disk)
  {
    hide SameAt, DistinctScreens, PicturesSet, StateKept, Rebuild;
    TempsAreTemps(items, u, t);
  }

  lemma SureSetChosen(setup: Setup, a: State, q: Request, code: ErrorCode, b: State)
    requires Sound(setup, a) && SureStep(setup, a, q, code, b) && q.Set?
    requires RequestSure(true, a.disk, q.userId, TypeOf(q.wallpaperType))
    ensures Sound(setup, b)
  {
    StepKeepsWellFormed(setup, a, q, code, b);
    SoundParts(setup, a);
    hide Sound, WellFormed, AllChosenExist, BuiltIn, Refused, Spoiled, Wiped, SetDone, RequestSure, SlotMissing, IsTree,
      MissingOutcome;
    if code == NO_ERROR {
      var u, t := q.userId, TypeOf(q.wallpaperType);
      SetDoneChosen(setup, a, b, Slot(u, t), q.res, Overwrite(Content(a.disk, TMP), Buffered(q.content, q.length)));
      PartsSound(setup, b);
    } else {
      assert b == a;
    }
  }

  lemma SureResetChosen(setup: Setup, a: State, q: Request, code: ErrorCode, b: State)
    requires Sound(setup, a) && SureStep(setup, a, q, code, b) && q.Reset?
    requires RequestSure(true, a.disk, q.userId, TypeOf(q.wallpaperType))
    ensures Sound(setup, b)
  {
    StepKeepsWellFormed(setup, a, q, code, b);
    SoundParts(setup, a);
    hide Sound, WellFormed, AllChosenExist, BuiltIn, Spoiled, ResetDone, RequestSure, SlotMissing, IsTree;
    if code == NO_ERROR {
      ResetDoneChosen(setup, a, b, Slot(q.userId, TypeOf(q.wallpaperType)));
      PartsSound(setup, b);
    } else {
      assert b == a;
    }
  }

  /** On a reliable system, a request for a slot whose directories are there keeps every chosen file there if
      and only if the state and the request say so beforehand. */
  lemma SureKeepsChosenExactly(setup: Setup, a: State, q: Request, code: ErrorCode, b: State)
    requires Sound(setup, a) && SureStep(setup, a, q, code, b) && ForSlot(q)
    requires RequestSure(true, a.disk, q.userId, TypeOf(q.wallpaperType))
    ensures Sound(setup, b) <==> KeepsChosen(a, q)
  {
    hide Sound, SureStep, RequestSure;
    match q {
      case Set(_, _, _, _, _, _) => SureSetChosen(setup, a, q, code, b);
      case Custom(_, _, _, _, _) => SurePackageChosenExactly(setup, a, q, code, b);
      case Reset(_, _, _) => SureResetChosen(setup, a, q, code, b);
      case SetAll(_, _, _, _, _) => SetAllChosenExactly(setup, a, q, code, b);
      case _ =>
    }
  }

  lemma SurePackageChosenExactly(setup: Setup, a: State, q: Request, code: ErrorCode, b: State)
    requires Sound(setup, a) && SureStep(setup, a, q, code, b) && q.Custom?
    requires RequestSure(true, a.disk, q.userId, TypeOf(q.wallpaperType))
    ensures Sound(setup, b) <==> KeepsChosen(a, q)
  {
    var u, caller, content, t, length := q.userId, q.caller, q.content, q.wallpaperType, q.length;
    StepKeepsWellFormed(setup, a, q, code, b);
    hide Sound, WellFormed, AllChosenExist, BuiltIn, RequestSure, IsTree, Exists, CustomOutcome;
    IdsOnlyGrow(setup, a, b, u, caller, content, t, length, code);
    if code == NO_ERROR || b.issued == a.issued {
      assert b.issued == a.issued ==> CustomPrecheck(caller, t) != NO_ERROR || !caller.sceneBoard;
      CustomChosen(setup, a, b, u, caller, content, t, length, code);
      PartsSound(setup, b);
    } else {
      PublishedChecks(setup, a, b, u, caller, content, t, length, code);
      StoppedPackageSoundExactly(setup, a, q, code, b);
    }
  }

  lemma PublishedChecks(setup: Setup, a: State, b: State, u: int, caller: Caller, content: Bytes, wallpaperType: int,
                        length: int, code: ErrorCode)
    requires CustomOutcome(setup, a, b, u, caller, content, wallpaperType, length, code) && b.issued > a.issued
    ensures CustomPrecheck(caller, wallpaperType) == NO_ERROR && caller.sceneBoard
  {
    hide SetOutcome, WithPackage, StateSaved, Refused, Rebuild;
    FillFacts(setup, a, u, TypeOf(wallpaperType));
  }

  lemma PartsSound(setup: Setup, b: State)
    requires WellFormed(b) && AllChosenExist(b) && BuiltIn(setup, b.disk)
    ensures Sound(setup, b)
  {
  }

  ghost predicate SuccessfulRun(setup: Setup, start: State, events: seq<Event>)
    decreases |events|
  {
    events == [] ||
    (Step(setup, start, events[0].request, events[0].code, events[0].after) &&
     DiskWorkSucceeded(setup, start, events[0].request, events[0].code, events[0].after) &&
     SuccessfulRun(setup, events[0].after, events[1..]))
  }

  /** Along such a run the file each entry selects is always there. */
  lemma {:induction false} RunKeepsChosen(setup: Setup, start: State, events: seq<Event>)
    requires Sound(setup, start) && SuccessfulRun(setup, start, events)
    ensures Sound(setup, Final(start, events))
    decreases |events|
  {
    hide Step, Sound, DiskWorkSucceeded;
    if events != [] {
      StepKeepsChosen(setup, start, events[0].request, events[0].code, events[0].after);
      RunKeepsChosen(setup, events[0].after, events[1..]);
    }
  }
}
