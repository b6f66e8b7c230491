/** Requests for one user's home or lock screen do not disturb any other slot. */
module Isolation {
  import opened Paths
  import opened FileDeal
  import opened StateFile
  import opened ServiceState
  import opened Places
  import opened EntryFacts
  import opened ListSteps
  import opened ServiceRuns

  /** A request for one slot: a change, or a read. */
  predicate OneSlot(q: Request) {
    ForSlot(q) || q.Lookup?
  }

  function SlotOf(q: Request): Slot
    requires OneSlot(q)
  {
    if q.Lookup? then Slot(q.userId, q.slotType) else Slot(q.userId, TypeOf(q.wallpaperType))
  }

  /** Every file and directory below the directory of every other slot is as before. */
  ghost predicate FilesKept(a: Disk, b: Disk, z: Slot) {
    forall x: Slot, p :: x != z && Below(p, GetWallpaperDir(x.userId, x.wallpaperType)) ==> SameAt(a, b, p)
  }

  /** Every other entry is as before, too; only the other entry of the same user may have been rebuilt from
      the disk, if it was missing. */
  ghost predicate OthersKept(setup: Setup, a: State, b: State, z: Slot) {
    (forall x: Slot :: x != z ==>
       SameEntry(a, b, x) || (x !in a.entries && x.userId == z.userId && IsRebuilt(setup, b, x))) &&
    FilesKept(a.disk, b.disk, z)
  }

  /** While the user has both entries, every other entry is as before. */
  lemma AllKept(setup: Setup, a: State, b: State, z: Slot)
    requires BothPresent(a, z.userId) && OthersKept(setup, a, b, z)
    ensures forall x: Slot :: x != z ==> SameEntry(a, b, x)
  {
    TwoSlots(z.userId);
    hide Rebuild, FilesKept;
    forall x: Slot | x != z ensures SameEntry(a, b, x) {
      assert x.userId == z.userId ==> a.Has(x.userId, x.wallpaperType);
    }
  }

  /** A disk on which only the directory of `z`, temporary files and the state file of its user differ. */
  lemma TouchedKeepsOthers(a: Disk, b: Disk, z: Slot)
    requires Touched(a, b, z.userId, z.wallpaperType)
    ensures FilesKept(a, b, z)
  {
    forall x: Slot, p | x != z && Below(p, GetWallpaperDir(x.userId, x.wallpaperType)) ensures SameAt(a, b, p) {
      Layout(x.userId, x.wallpaperType);
      if Below(p, GetWallpaperDir(z.userId, z.wallpaperType)) {
        DistinctTypes(p, z.userId, z.wallpaperType, x.userId, x.wallpaperType);
      }
      if p == StatePath(z.userId) {
        Layout(z.userId, z.wallpaperType);
        DistinctUsers(p, z.userId, x.userId);
      }
    }
  }

  lemma FailedKeepsOthers(setup: Setup, a: State, b: State, z: Slot)
    requires Spoiled(setup, a, b, z.userId, z.wallpaperType) || Refused(setup, a, b, z.userId)
    ensures OthersKept(setup, a, b, z)
  {
    hide Inside, SameAt, StateKept, Rebuild, IsTemp, FilesKept;
    assert Touched(a.disk, b.disk, z.userId, z.wallpaperType);
    TouchedKeepsOthers(a.disk, b.disk, z);
    forall x: Slot | x != z
      ensures SameEntry(a, b, x) || (x !in a.entries && x.userId == z.userId && IsRebuilt(setup, b, x))
    {
      assert x == Slot(x.userId, x.wallpaperType);
      if x in b.entries && x !in a.entries {
        assert b.Has(z.userId, x.wallpaperType) && !a.Has(z.userId, x.wallpaperType);
      }
    }
  }

  lemma SetDoneKeepsOthers(setup: Setup, a: State, b: State, z: Slot, res: ResourceType, bytes: Bytes)
    requires SetDone(setup, a, b, z.userId, z.wallpaperType, res, bytes)
    ensures OthersKept(setup, a, b, z)
  {
    hide Below, SameAt, Rebuild, FilesKept;
    Layout(z.userId, z.wallpaperType);
    assert Touched(a.disk, b.disk, z.userId, z.wallpaperType);
    TouchedKeepsOthers(a.disk, b.disk, z);
    TwoSlots(z.userId);
  }

  /** A set that is no picture for a slot without an entry. */
  lemma SetKeepsOthers(setup: Setup, a: State, b: State, u: int, allowed: bool, content: Bytes, wallpaperType: int,
                       length: int, res: ResourceType, code: ErrorCode)
    requires SetOutcome(setup, a, b, u, allowed, content, wallpaperType, length, res, code)
    requires a.Has(u, TypeOf(wallpaperType)) || !res.RES_PICTURE?
    ensures OthersKept(setup, a, b, Slot(u, TypeOf(wallpaperType)))
  {
    hide SetDone, Refused, Spoiled, Wiped, OthersKept;
    var z := Slot(u, TypeOf(wallpaperType));
    NothingChanged(setup, a, z);
    if content != [] && SetPrecheck(allowed, wallpaperType, length, res) == NO_ERROR {
      if code == NO_ERROR {
        SetDoneKeepsOthers(setup, a, b, z, res, Overwrite(Content(a.disk, TMP), Buffered(content, length)));
      } else if code == E_DEAL_FAILED {
        FailedKeepsOthers(setup, a, b, z);
      }
    }
  }

  lemma NothingChanged(setup: Setup, a: State, z: Slot)
    ensures OthersKept(setup, a, a, z)
  {
  }

  lemma SameFilesRebuild(setup: Setup, a: Disk, b: Disk, z: Slot, x: Slot)
    requires FilesKept(a, b, z) && x != z
    ensures Rebuild(setup, a, x.userId, x.wallpaperType) == Rebuild(setup, b, x.userId, x.wallpaperType)
  {
    Layout(x.userId, x.wallpaperType);
    SamePictures(setup, a, b, x.userId, x.wallpaperType);
  }

  lemma KeptTransitive(setup: Setup, a: State, b: State, c: State, z: Slot)
    requires OthersKept(setup, a, b, z) && OthersKept(setup, b, c, z)
    ensures OthersKept(setup, a, c, z)
  {
    forall x: Slot, p | x != z && Below(p, GetWallpaperDir(x.userId, x.wallpaperType))
      ensures SameAt(a.disk, c.disk, p)
    {
      assert SameAt(a.disk, b.disk, p) && SameAt(b.disk, c.disk, p);
    }
    hide Rebuild, FilesKept, SameAt;
    forall x: Slot | x != z
      ensures SameEntry(a, c, x) || (x !in a.entries && x.userId == z.userId && IsRebuilt(setup, c, x))
    {
      SameFilesRebuild(setup, b.disk, c.disk, z, x);
    }
  }

  lemma CustomKeepsOthers(setup: Setup, a: State, b: State, u: int, caller: Caller, content: Bytes, wallpaperType: int,
                          length: int, code: ErrorCode)
    requires CustomOutcome(setup, a, b, u, caller, content, wallpaperType, length, code)
    ensures OthersKept(setup, a, b, Slot(u, TypeOf(wallpaperType)))
  {
    hide Refused, SetOutcome, WithPackage, NewText, OthersKept, Written, FillBoth, Fill, Rebuild;
    var t := TypeOf(wallpaperType);
    var z := Slot(u, t);
    NothingChanged(setup, a, z);
    if CustomPrecheck(caller, wallpaperType) == NO_ERROR {
      if !caller.sceneBoard {
        FilledKeepsOthers(setup, a, z);
      } else if Refused(setup, a, b, u) {
        FailedKeepsOthers(setup, a, b, z);
      } else {
        var m, n :| StateSaved(setup, a, m, u, t, RES_PACKAGE) && IsTree(m.disk) &&
                    SetOutcome(setup, m, n, u, caller.userAllowed, content, wallpaperType, length, RES_PACKAGE, code) &&
                    b == WithPackage(setup, a, n, u, t);
        SavedKeepsOthers(setup, a, m, z);
        SetKeepsOthers(setup, m, n, u, caller.userAllowed, content, wallpaperType, length, RES_PACKAGE, code);
        KeptTransitive(setup, a, m, n, z);
        PackageFacts(setup, a, n, u, t);
        PublishedKeepsOthers(setup, n, b, z);
        KeptTransitive(setup, a, n, b, z);
      }
    }
  }

  lemma FilledKeepsOthers(setup: Setup, a: State, z: Slot)
    ensures OthersKept(setup, a, Fill(setup, a, z.userId, z.wallpaperType), z)
  {
    hide Rebuild;
    assert z == Slot(z.userId, z.wallpaperType);
    FillFacts(setup, a, z.userId, z.wallpaperType);
  }

  lemma SavedKeepsOthers(setup: Setup, a: State, m: State, z: Slot)
    requires StateSaved(setup, a, m, z.userId, z.wallpaperType, RES_PACKAGE)
    ensures OthersKept(setup, a, m, z) && BothPresent(m, z.userId)
  {
    hide NewText, Below, Rebuild, FillBoth, FilesKept;
    assert Touched(a.disk, m.disk, z.userId, z.wallpaperType);
    TouchedKeepsOthers(a.disk, m.disk, z);
    FillBothFacts(setup, a, z.userId);
    var f := FillBoth(setup, a, z.userId);
    assert m.entries == f.entries;
    forall x: Slot | x != z
      ensures SameEntry(a, m, x) || (x !in a.entries && x.userId == z.userId && IsRebuilt(setup, m, x))
    {
      SameFilesRebuild(setup, a.disk, m.disk, z, x);
      assert x == Slot(x.userId, x.wallpaperType);
      if x.userId == z.userId {
        assert f.Has(z.userId, x.wallpaperType) &&
               f.At(z.userId, x.wallpaperType) == Current(setup, a, z.userId, x.wallpaperType);
      } else {
        assert SameEntry(a, f, x);
      }
    }
    assert f.Has(z.userId, System) && f.Has(z.userId, Lockscreen);
  }

  lemma PublishedKeepsOthers(setup: Setup, n: State, b: State, z: Slot)
    requires b.disk == n.disk && forall x: Slot :: x != z ==> SameEntry(n, b, x)
    ensures OthersKept(setup, n, b, z)
  {
  }

  lemma ResetKeepsOthers(setup: Setup, a: State, b: State, z: Slot)
    requires ResetDone(setup, a, b, z.userId, z.wallpaperType)
    ensures OthersKept(setup, a, b, z)
  {
    hide Below, SameAt, Rebuild, GetWallpaperDefaultPath, FilesKept;
    assert Touched(a.disk, b.disk, z.userId, z.wallpaperType);
    TouchedKeepsOthers(a.disk, b.disk, z);
    TwoSlots(z.userId);
  }

  lemma SetAllKeepsOthers(setup: Setup, a: State, b: State, z: Slot, items: seq<Item>)
    requires SetAllDone(setup, a, b, z.userId, z.wallpaperType, items)
    ensures OthersKept(setup, a, b, z)
  {
    hide Below, SameAt, DistinctScreens, PicturesSet, FilesKept;
    TempsAreTemps(items, z.userId, z.wallpaperType);
    assert Touched(a.disk, b.disk, z.userId, z.wallpaperType);
    TouchedKeepsOthers(a.disk, b.disk, z);
  }

  /** A request that can set a user up afresh: a picture for a slot without an entry, or a read of one. */
  predicate CanWipe(a: State, q: Request) {
    match q
    case Set(u, _, _, wallpaperType, _, res) => res.RES_PICTURE? && !a.Has(u, TypeOf(wallpaperType))
    case Lookup(u, t, _) => !a.Has(u, t)
    case _ => false
  }

  /** Unless it is a picture for a slot without an entry, or a read of one, a request for one slot, successful
      or not, keeps every other entry and every file of every other slot. */
  lemma SlotRequestKeepsOthers(setup: Setup, a: State, q: Request, code: ErrorCode, b: State)
    requires OneSlot(q) && Step(setup, a, q, code, b) && !CanWipe(a, q)
    ensures OthersKept(setup, a, b, SlotOf(q))
    ensures BothPresent(a, q.userId) ==> forall x: Slot :: x != SlotOf(q) ==> SameEntry(a, b, x)
  {
    RequestKeepsOthers(setup, a, q, code, b);
    hide Step, OthersKept;
    if BothPresent(a, q.userId) { AllKept(setup, a, b, SlotOf(q)); }
  }

  lemma RequestKeepsOthers(setup: Setup, a: State, q: Request, code: ErrorCode, b: State)
    requires OneSlot(q) && Step(setup, a, q, code, b) && !CanWipe(a, q)
    ensures OthersKept(setup, a, b, SlotOf(q))
  {
    hide SetOutcome, CustomOutcome, Refused, Spoiled, ResetDone, SetAllDone, OthersKept, IsTree;
    var z := SlotOf(q);
    NothingChanged(setup, a, z);
    match q
    case Set(u, allowed, content, t, length, res) =>
      SetKeepsOthers(setup, a, b, u, allowed, content, t, length, res, code);
    case Custom(u, caller, content, t, length) => CustomKeepsOthers(setup, a, b, u, caller, content, t, length, code);
    case Reset(u, caller, t) =>
      if b != a {
        if code == NO_ERROR { ResetKeepsOthers(setup, a, b, z); } else { FailedKeepsOthers(setup, a, b, z); }
      }
    case SetAll(u, caller, items, fdCount, t) =>
      if b != a {
        if code == NO_ERROR { SetAllKeepsOthers(setup, a, b, z, items); } else { FailedKeepsOthers(setup, a, b, z); }
      }
    case _ =>
  }

  // ----- the picture that sets a user up afresh -----

  lemma EmptiedOther(setup: Setup, a: Disk, b: State, u: int, t: WallpaperType)
    requires InitDone(setup, b, u)
    requires forall p :: !Inside(p, UserDir(u)) && !IsTemp(p) ==> SameAt(a, b.disk, p)
    ensures FilesKept(a, b.disk, Slot(u, t)) <==>
              forall p :: Below(p, GetWallpaperDir(u, OtherType(t))) ==> !Exists(a, p)
  {
    hide Rebuild, Inside;
    var z, k := Slot(u, t), OtherType(t);
    Layout(u, k);
    forall p | Below(p, GetWallpaperDir(u, k)) ensures !Exists(b.disk, p) {
      TypeDirInUserDir(p, u, k);
    }
    if FilesKept(a, b.disk, z) {
      forall p | Below(p, GetWallpaperDir(u, k)) ensures !Exists(a, p) {
        assert Slot(u, k) != z && SameAt(a, b.disk, p);
      }
    }
    if forall p :: Below(p, GetWallpaperDir(u, k)) ==> !Exists(a, p) {
      forall x: Slot, p | x != z && Below(p, GetWallpaperDir(x.userId, x.wallpaperType)) ensures SameAt(a, b.disk, p) {
        Layout(x.userId, x.wallpaperType);
        if x.userId == u {
          assert x == Slot(u, k);
        } else if Inside(p, UserDir(u)) {
          DistinctUsers(p, u, x.userId);
        }
      }
    }
  }

  /** On a reliable system, a set that passes its checks but misses the directory of its slot keeps the files
      of every other slot if and only if it is no picture, or the slot has an entry, or the user's other
      directory is empty. */
  lemma WipeExactly(setup: Setup, a: State, q: Request, code: ErrorCode, b: State)
    requires q.Set? && WellFormed(a) && SureStep(setup, a, q, code, b) && AnswerTo(q) == NO_ERROR
    requires SlotMissing(a.disk, q.userId, TypeOf(q.wallpaperType))
    ensures FilesKept(a.disk, b.disk, SlotOf(q)) <==>
            !CanWipe(a, q) || q.userId < 0 ||
            forall p :: Below(p, GetWallpaperDir(q.userId, OtherType(TypeOf(q.wallpaperType)))) ==> !Exists(a.disk, p)
  {
    assert q.length >= 0;
    hide SetOutcome, InitDone, FilesKept, SlotMissing, AnswerTo, WellFormed, RequestSure;
    if !CanWipe(a, q) {
      SlotRequestKeepsOthers(setup, a, q, code, b);
    } else if q.userId >= 0 && UserDir(q.userId) !in a.disk.files {
      EmptiedOther(setup, a.disk, b, q.userId, TypeOf(q.wallpaperType));
    } else {
      NoDirectory(setup, a, q, code, b);
    }
  }

  /** No file of the user, leftover originals excepted, was lost or overwritten. */
  ghost predicate UserFilesKept(a: Disk, b: Disk, u: int) {
    forall p :: Below(p, UserDir(u)) && !IsOriginal(p) && p in a.files ==> p in b.files && b.files[p] == a.files[p]
  }

  ghost predicate UserEmpty(d: Disk, u: int) {
    forall p :: Below(p, UserDir(u)) && !IsOriginal(p) ==> p !in d.files
  }

  /** On a reliable system, a read keeps the files of every other slot if and only if its slot has an entry, or
      the user id is negative, or the user's other directory is empty; and it keeps the user's own files if and
      only if its slot has an entry, or the user id is negative, or there are none. */
  lemma ReadKeepsExactly(setup: Setup, a: State, q: Request, code: ErrorCode, b: State)
    requires q.Lookup? && IsTree(a.disk) && SureStep(setup, a, q, code, b)
    ensures FilesKept(a.disk, b.disk, SlotOf(q)) <==>
            !CanWipe(a, q) || q.userId < 0 ||
            forall p :: Below(p, GetWallpaperDir(q.userId, OtherType(q.slotType))) ==> !Exists(a.disk, p)
    ensures UserFilesKept(a.disk, b.disk, q.userId) <==>
            !CanWipe(a, q) || q.userId < 0 || UserEmpty(a.disk, q.userId)
  {
    hide InitDone, FilesKept, UserFilesKept, UserEmpty, IsTree;
    var u, t := q.userId, q.slotType;
    if CanWipe(a, q) && CanSetUp(a.disk, u) {
      EmptiedOther(setup, a.disk, b, u, t);
      EmptiedUser(setup, a.disk, b, u);
    } else {
      SameKept(a.disk, SlotOf(q), u);
      if CanWipe(a, q) && u >= 0 { NoUserDirectory(a.disk, u, OtherType(t)); }
    }
  }

  lemma EmptiedUser(setup: Setup, a: Disk, b: State, u: int)
    requires InitDone(setup, b, u)
    ensures UserFilesKept(a, b.disk, u) <==> UserEmpty(a, u)
  {
    hide Rebuild;
    forall p | Below(p, UserDir(u)) ensures p !in b.disk.files {
      assert Inside(p, UserDir(u));
    }
  }

  lemma SameKept(d: Disk, z: Slot, u: int)
    ensures FilesKept(d, d, z) && UserFilesKept(d, d, u)
  {
  }

  lemma NoUserDirectory(d: Disk, u: int, t: WallpaperType)
    requires IsTree(d) && !CanSetUp(d, u) && u >= 0
    ensures UserEmpty(d, u) && forall p :: Below(p, GetWallpaperDir(u, t)) ==> !Exists(d, p)
  {
    Layout(u, t);
    forall c | Exists(d, c) ensures !(c.Child? && c.parent == UserDir(u)) {}
    NothingLeft(d, UserDir(u));
    forall p | Below(p, GetWallpaperDir(u, t)) ensures !Exists(d, p) {
      TypeDirInUserDir(p, u, t);
    }
  }

  lemma NoDirectory(setup: Setup, a: State, q: Request, code: ErrorCode, b: State)
    requires q.Set? && WellFormed(a) && (q.userId < 0 || UserDir(q.userId) in a.disk.files) && q.length >= 0
    requires MissingOutcome(setup, a, b, q.userId, TypeOf(q.wallpaperType), q.res, Buffered(q.content, q.length), code)
    ensures FilesKept(a.disk, b.disk, SlotOf(q))
    ensures q.userId >= 0 ==>
              forall p :: Below(p, GetWallpaperDir(q.userId, OtherType(TypeOf(q.wallpaperType)))) ==> !Exists(a.disk, p)
  {
    if q.userId >= 0 { NothingBelowFile(a.disk, q.userId, OtherType(TypeOf(q.wallpaperType))); }
    TempElsewhere(a.disk, b.disk, SlotOf(q));
  }

  lemma NothingBelowFile(d: Disk, u: int, t: WallpaperType)
    requires IsTree(d) && UserDir(u) in d.files
    ensures forall p :: Below(p, GetWallpaperDir(u, t)) ==> !Exists(d, p)
  {
    var dir := GetWallpaperDir(u, t);
    assert dir.parent == UserDir(u) && dir !in d.dirs;
    forall c | Exists(d, c) ensures !(c.Child? && c.parent == dir) {}
    NothingLeft(d, dir);
  }

  lemma TempElsewhere(a: Disk, b: Disk, z: Slot)
    requires forall p :: p != TMP ==> SameAt(a, b, p)
    ensures FilesKept(a, b, z)
  {
    forall x: Slot, p | x != z && Below(p, GetWallpaperDir(x.userId, x.wallpaperType)) ensures SameAt(a, b, p) {
      Layout(x.userId, x.wallpaperType);
    }
  }

  lemma TwoSlotsReady(d: Disk)
    requires d.dirs == {Base, UserDir(100), GetWallpaperDir(100, System), GetWallpaperDir(100, Lockscreen)}
    ensures RequestSure(true, d, 100, System)
  {
    UserDirsInside(100);
    forall p | IsTemp(p) ensures p !in d.dirs {
      TempsOutsideUsers(p, 100);
      assert p in d.dirs ==> p == Base || p in UserDirs(100);
    }
  }

  /** A user with a lock screen picture, but no home directory and no home entry. */
  function HomeMissing(setup: Setup): State {
    var d := Disk({Base, UserDir(100), GetWallpaperDir(100, Lockscreen)},
                  map[PicturePath(100, Lockscreen, Normal, Port) := "lock"]);
    State(d, imap[Slot(100, Lockscreen) := Rebuild(setup, d, 100, Lockscreen)], -1, 0, 100)
  }

  function HomeSetUp(setup: Setup): State {
    var d := Disk({Base, UserDir(100), GetWallpaperDir(100, System), GetWallpaperDir(100, Lockscreen)},
                  map[TMP := "home"]);
    State(d, imap[Slot(100, System) := Rebuild(setup, d, 100, System),
                  Slot(100, Lockscreen) := Rebuild(setup, d, 100, Lockscreen)], -1, 0, 100)
  }

  /** So it happens: that user loses the lock screen picture to a failed request for the home screen. */
  lemma WipeHappens(setup: Setup) returns (a: State, q: Request, after: State)
    ensures WellFormed(a) && a.Has(100, Lockscreen) && q.Set? && SlotOf(q) == Slot(100, System)
    ensures Exists(a.disk, PicturePath(100, Lockscreen, Normal, Port))
    ensures SureStep(setup, a, q, E_DEAL_FAILED, after)
    ensures forall code, b :: SureStep(setup, a, q, code, b) ==>
              code == E_DEAL_FAILED && !Exists(b.disk, PicturePath(100, Lockscreen, Normal, Port))
  {
    a, after := HomeMissing(setup), HomeSetUp(setup);
    q := Request.Set(100, true, "home", 0, 4, RES_PICTURE);
    MissingDisk(setup);
    MissingFits(setup);
    SetUpAfresh(setup, q);
    hide HomeMissing, SureStep, SlotMissing, WellFormed;
    forall code, b | SureStep(setup, a, q, code, b)
      ensures code == E_DEAL_FAILED && !Exists(b.disk, PicturePath(100, Lockscreen, Normal, Port))
    {
      WipeLoses(setup, a, q, code, b);
    }
  }

  lemma MissingDisk(setup: Setup)
    ensures var d := HomeMissing(setup).disk;
            IsTree(d) && SlotMissing(d, 100, System) && UserDir(100) !in d.files &&
            Exists(d, PicturePath(100, Lockscreen, Normal, Port)) && !Exists(d, StatePath(100)) && TMP !in d.files
  {
    hide Rebuild;
    assert UserDir(100) != GetWallpaperDir(100, Lockscreen) &&
           GetWallpaperDir(100, System) != GetWallpaperDir(100, Lockscreen);
  }

  lemma MissingFits(setup: Setup)
    ensures var a := HomeMissing(setup);
            WellFormed(a) && !a.Has(100, System) && a.Has(100, Lockscreen)
  {
    MissingDisk(setup);
    RebuildIsFresh(setup, HomeMissing(setup).disk, 100, Lockscreen);
    hide Rebuild, IsTree, SlotMissing;
  }

  lemma SetUpAfresh(setup: Setup, q: Request)
    requires q == Request.Set(100, true, "home", 0, 4, RES_PICTURE)
    ensures SureStep(setup, HomeMissing(setup), q, E_DEAL_FAILED, HomeSetUp(setup))
  {
    MissingDisk(setup);
    MissingFits(setup);
    HomeIsSetUp(setup);
    OnlyTheUser(setup);
    TempIsLeft(setup);
    hide SureStep, Step, HomeMissing, HomeSetUp, Inside, InitDone, SlotMissing, SameAt, IsTree, Overwrite, Buffered,
      OtherUsersKept, StateFileFits, WellFormed;
    var a, b := HomeMissing(setup), HomeSetUp(setup);
    assert OnlyUserDirsAdded(a.disk, b.disk, 100) by { HomeDirs(setup); }
    assert Wiped(setup, a, b, 100);
    MissingIsStep(setup, a, q, b);
  }

  lemma HomeDirs(setup: Setup)
    ensures OnlyUserDirsAdded(HomeMissing(setup).disk, HomeSetUp(setup).disk, 100)
  {
    hide Rebuild;
    UserDirsInside(100);
    TempsOutsideUsers(TMP, 100);
  }

  lemma TempIsLeft(setup: Setup)
    ensures Content(HomeSetUp(setup).disk, TMP) == Overwrite(Content(HomeMissing(setup).disk, TMP), Buffered("home", 4))
    ensures forall p :: IsTemp(p) && p != TMP ==> SameAt(HomeMissing(setup).disk, HomeSetUp(setup).disk, p)
  {
    MissingDisk(setup);
    OverwriteExact([], "home");
    assert "home"[..4] == "home";
    hide Rebuild, Overwrite, PicturePath;
  }

  lemma MissingIsStep(setup: Setup, a: State, q: Request, b: State)
    requires q.Set? && q.content != [] && AnswerTo(q) == NO_ERROR &&
             SlotMissing(a.disk, q.userId, TypeOf(q.wallpaperType))
    requires q.res.RES_PICTURE? && !a.Has(q.userId, TypeOf(q.wallpaperType)) && IsTree(b.disk)
    requires MissingOutcome(setup, a, b, q.userId, TypeOf(q.wallpaperType), q.res, Buffered(q.content, q.length),
                            E_DEAL_FAILED)
    requires Wiped(setup, a, b, q.userId)
    ensures SureStep(setup, a, q, E_DEAL_FAILED, b)
  {
    hide MissingOutcome, Wiped, IsTree, Buffered, Overwrite, CustomOutcome, ResetOutcome, SetAllOutcome, Refused,
      Spoiled;
  }

  lemma OnlyTheUser(setup: Setup)
    ensures var a, b := HomeMissing(setup), HomeSetUp(setup);
            (forall p :: !Inside(p, UserDir(100)) && !IsTemp(p) ==> SameAt(a.disk, b.disk, p)) &&
            OtherUsersKept(a, b, 100) && StateFileFits(setup, b.disk, 100) &&
            a.wallpaperId == b.wallpaperId && a.issued == b.issued && a.currentUserId == b.currentUserId
  {
    hide Rebuild, Inside;
    UserDirsInside(100);
    Layout(100, Lockscreen);
    assert StatePath(100) != TMP;
  }

  lemma HomeIsSetUp(setup: Setup)
    ensures InitDone(setup, HomeSetUp(setup), 100) && IsTree(HomeSetUp(setup).disk)
  {
    hide Rebuild;
    var b := HomeSetUp(setup);
    TempsOutsideUsers(TMP, 100);
    assert GetWallpaperDir(100, System) != GetWallpaperDir(100, Lockscreen);
    forall k ensures b.Has(100, k) && b.At(100, k) == Rebuild(setup, b.disk, 100, k) {
      assert k == System || k == Lockscreen;
    }
  }

  lemma WipeLoses(setup: Setup, a: State, q: Request, code: ErrorCode, b: State)
    requires SureStep(setup, a, q, code, b) && q == Request.Set(100, true, "home", 0, 4, RES_PICTURE)
    requires SlotMissing(a.disk, 100, System) && !a.Has(100, System) && UserDir(100) !in a.disk.files
    ensures code == E_DEAL_FAILED && !Exists(b.disk, PicturePath(100, Lockscreen, Normal, Port))
  {
    hide SetOutcome, SlotMissing, Wiped, RequestSure;
    var picture := PicturePath(100, Lockscreen, Normal, Port);
    Layout(100, Lockscreen);
    assert InitDone(setup, b, 100);
    assert Inside(picture, UserDir(100)) && picture != UserDir(100);
  }
}
