/** From single calls to the outcome of a request for one slot: set, reset and package. */
module SlotSteps {
  import opened Paths
  import opened FileDeal
  import opened StateFile
  import opened ServiceState
  import opened Places
  import opened EntryFacts

  // ----- what a request needs in order to succeed -----

  lemma MissingForTemp(d: Disk, u: int, t: WallpaperType)
    requires SlotMissing(d, u, t)
    ensures Writable(d, TMP) && GetWallpaperDir(u, t) !in d.dirs && Base in d.dirs
  {
  }

  lemma TempLeft(a: Disk, b: Disk, bytes: Bytes)
    requires Written(a, b, TMP, bytes, true)
    ensures b == a.(files := a.files[TMP := Overwrite(Content(a, TMP), bytes)]) && Exists(b, TMP)
  {
  }

  lemma TempSurvivesInit(setup: Setup, m: State, b: State, u: int)
    requires InitOutcome(setup, m, b, u)
    ensures Content(b.disk, TMP) == Content(m.disk, TMP)
    ensures forall p :: IsTemp(p) ==> SameAt(m.disk, b.disk, p)
  {
    Layout(u, System);
    assert u >= 0 ==> SameAt(m.disk, b.disk, TMP);
    forall p | IsTemp(p) ensures SameAt(m.disk, b.disk, p) {
      TempsOutsideUsers(p, u);
    }
  }

  lemma ReadyToWrite(d: Disk, u: int, t: WallpaperType, p: Path)
    requires IsTree(d) && SlotReady(d, u, t)
    ensures Writable(d, StatePath(u))
    ensures IsTemp(p) && p !in d.dirs ==> Writable(d, p)
  {
    assert GetWallpaperDir(u, t).parent == UserDir(u) && UserDir(u).parent == Base;
    assert UserDir(u) in d.dirs;
  }

  /** After the directory of a slot was cleared there is room for its new file. */
  lemma ReadyToMove(a: Disk, b: Disk, u: int, t: WallpaperType, target: Path)
    requires IsTree(a) && IsTree(b) && SlotReady(a, u, t) && DirDeleted(a, b, GetWallpaperDir(u, t), false, true)
    requires Below(target, GetWallpaperDir(u, t)) && target.parent == GetWallpaperDir(u, t)
    ensures SlotReady(b, u, t) && Writable(b, target)
  {
    Layout(u, t);
    assert SameAt(a, b, StatePath(u)) by {
      if Inside(StatePath(u), GetWallpaperDir(u, t)) { InsideDepth(StatePath(u), GetWallpaperDir(u, t)); }
    }
  }

  lemma SureToStart(reliable: bool, d: Disk, u: int, t: WallpaperType)
    ensures BackupSure(reliable, d, u, t) ==> reliable && GetWallpaperDir(u, t) in d.dirs && Exists(d, TMP)
  {
  }

  lemma SureToInstall(setup: Setup, reliable: bool, a: State, d1: Disk, u: int, t: WallpaperType, res: ResourceType)
    requires IsTree(a.disk) && IsTree(d1) && DirDeleted(a.disk, d1, GetWallpaperDir(u, t), false, true)
    ensures BackupSure(reliable, a.disk, u, t) ==>
              reliable && BackupSure(reliable, d1, u, t) && TMP in d1.files && Writable(d1, TargetPath(u, t, res))
  {
    if BackupSure(reliable, a.disk, u, t) {
      Layout(u, t);
      ReadyToMove(a.disk, d1, u, t, TargetPath(u, t, res));
      assert SameAt(a.disk, d1, TMP) by {
        if Inside(TMP, GetWallpaperDir(u, t)) { InsideDepth(TMP, GetWallpaperDir(u, t)); }
      }
    }
  }

  lemma SureToAnnounce(reliable: bool, d1: Disk, d2: Disk, u: int, t: WallpaperType, target: Path)
    requires IsTree(d2) && Below(target, GetWallpaperDir(u, t))
    requires forall p :: p != TMP && p != target ==> SameAt(d1, d2, p)
    ensures BackupSure(reliable, d1, u, t) ==> reliable && Writable(d2, StatePath(u))
  {
    if BackupSure(reliable, d1, u, t) {
      Layout(u, t);
      InsideDepth(target.parent, GetWallpaperDir(u, t));
      ReadyKept(d1, d2, u, t);
      ReadyToWrite(d2, u, t, TMP);
    }
  }

  lemma SureForTemps(reliable: bool, d: Disk, u: int, t: WallpaperType)
    requires IsTree(d)
    ensures RequestSure(reliable, d, u, t) ==> reliable && Writable(d, TMP) && TempsWritable(d) && TempsReady(d)
  {
    if RequestSure(reliable, d, u, t) {
      forall p | IsTemp(p) ensures Writable(d, p) {
        ReadyToWrite(d, u, t, p);
      }
    }
  }

  lemma TempsFit(d: Disk)
    requires Base in d.dirs && TempsReady(d)
    ensures TempsWritable(d) && Writable(d, TMP)
  {
    forall p | IsTemp(p) ensures Writable(d, p) {
      assert p !in d.dirs;
    }
    assert IsTemp(TMP);
  }

  lemma NotMissing(d: Disk, u: int, t: WallpaperType)
    requires RequestSure(true, d, u, t)
    ensures !SlotMissing(d, u, t)
  {
  }

  lemma SureAfterTemp(reliable: bool, a: Disk, b: Disk, u: int, t: WallpaperType, bytes: Bytes)
    requires Written(a, b, TMP, bytes, true)
    ensures RequestSure(reliable, a, u, t) ==> BackupSure(reliable, b, u, t)
  {
  }

  lemma SureToReset(reliable: bool, d: Disk, u: int, t: WallpaperType)
    requires IsTree(d)
    ensures RequestSure(reliable, d, u, t) ==> reliable && GetWallpaperDir(u, t) in d.dirs && Writable(d, StatePath(u))
  {
    if RequestSure(reliable, d, u, t) {
      ReadyToWrite(d, u, t, TMP);
    }
  }

  lemma SureAfterClearing(reliable: bool, a: Disk, b: Disk, u: int, t: WallpaperType)
    requires IsTree(a) && IsTree(b) && DirDeleted(a, b, GetWallpaperDir(u, t), false, true)
    ensures RequestSure(reliable, a, u, t) ==> reliable && Writable(b, StatePath(u))
  {
    if RequestSure(reliable, a, u, t) {
      Layout(u, t);
      ReadyToMove(a, b, u, t, LivePath(u, t));
      ReadyToWrite(b, u, t, TMP);
    }
  }

  lemma SureAfterState(reliable: bool, a: Disk, b: Disk, u: int, t: WallpaperType, text: Bytes)
    requires Written(a, b, StatePath(u), text, true)
    ensures RequestSure(reliable, a, u, t) ==> RequestSure(reliable, b, u, t)
  {
  }

  lemma ReadyKept(a: Disk, b: Disk, u: int, t: WallpaperType)
    requires SlotReady(a, u, t) && SameAt(a, b, GetWallpaperDir(u, t)) && SameAt(a, b, StatePath(u))
    ensures SlotReady(b, u, t)
  {
  }

  // ----- composing what single calls do to the disk -----

  lemma ClearedIsTouched(a: Disk, b: Disk, u: int, t: WallpaperType, ok: bool)
    requires IsTree(a) && DirDeleted(a, b, GetWallpaperDir(u, t), false, ok)
    ensures Touched(a, b, u, t) && SameAt(a, b, StatePath(u)) && SameAt(a, b, TMP) && b.dirs <= a.dirs
    ensures ok ==> !Exists(b, PicturePath(u, t, Normal, Port)) && GetWallpaperDir(u, t) in a.dirs
    ensures forall f, r :: SameAt(a, b, TempPath(f, r))
  {
    var dir := GetWallpaperDir(u, t);
    Layout(u, t);
    DeletedDirs(a, b, dir, false, ok);
    forall p | !Below(p, dir) ensures SameAt(a, b, p) {
      assert Inside(p, dir) ==> p == dir;
    }
  }

  /** A write of the state file that failed leaves it as it was, or empty where there was none. */
  lemma UnsavedKeepsState(a: Disk, b: Disk, c: Disk, u: int, text: Bytes)
    requires SameAt(a, b, StatePath(u)) && Written(b, c, StatePath(u), text, false)
    ensures StateKept(a, c, u) && c.dirs == b.dirs
  {
  }

  lemma InstalledByParts(d0: Disk, d1: Disk, d2: Disk, d3: Disk, u: int, t: WallpaperType, target: Path, text: Bytes)
    requires IsTree(d0)
    requires DirDeleted(d0, d1, GetWallpaperDir(u, t), false, true)
    requires Moved(d1, d2, TMP, target)
    requires Written(d2, d3, StatePath(u), text, true)
    requires Below(target, GetWallpaperDir(u, t))
    ensures Installed(d0, d3, u, t, target, Content(d0, TMP), text)
  {
    var dir := GetWallpaperDir(u, t);
    Layout(u, t);
    ClearedIsTouched(d0, d1, u, t, true);
    forall p | p != StatePath(u) ensures SameAt(d2, d3, p) {}
    assert SameAt(d1, d2, StatePath(u));
    assert SameAt(d2, d3, target) && SameAt(d2, d3, TMP);
    forall p | p != target && Below(p, dir) ensures !Exists(d3, p) {
      assert SameAt(d1, d2, p) && SameAt(d2, d3, p);
    }
    forall p | p != TMP && p != StatePath(u) && !Below(p, dir) ensures SameAt(d0, d3, p) {
      assert Inside(p, dir) ==> p == dir;
      assert SameAt(d0, d1, p) && SameAt(d1, d2, p) && SameAt(d2, d3, p);
    }
  }

  lemma MoveIsTouched(a: Disk, b: Disk, c: Disk, u: int, t: WallpaperType, target: Path)
    requires Touched(a, b, u, t) && SameAt(a, b, StatePath(u))
    requires forall p :: p != TMP && p != target ==> SameAt(b, c, p)
    requires Below(target, GetWallpaperDir(u, t))
    ensures Touched(a, c, u, t) && SameAt(a, c, StatePath(u))
  {
    Layout(u, t);
    forall p | !Below(p, GetWallpaperDir(u, t)) && !IsTemp(p) ensures SameAt(a, c, p) {
      assert SameAt(a, b, p) && SameAt(b, c, p);
    }
  }

  lemma WriteIsTouched(a: Disk, b: Disk, c: Disk, u: int, t: WallpaperType, text: Bytes, ok: bool)
    requires Touched(a, b, u, t) && Written(b, c, StatePath(u), text, ok)
    ensures Touched(a, c, u, t) && Touched(b, c, u, t)
  {
    forall p | !Below(p, GetWallpaperDir(u, t)) && !IsTemp(p) && p != StatePath(u) ensures SameAt(a, c, p) {
      assert SameAt(a, b, p) && SameAt(b, c, p);
    }
  }

  lemma UserDirsApart(a: Disk, m: Disk, b: Disk, u: int, t: WallpaperType)
    requires m.dirs <= a.dirs && OnlyUserDirsAdded(m, b, u)
    requires forall p :: !Below(p, GetWallpaperDir(u, t)) && !IsTemp(p) && p != StatePath(u) ==> SameAt(a, m, p)
    ensures OnlyUserDirsAdded(a, b, u)
  {
    UserDirsInside(u);
    forall p | p in UserDirs(u) ensures SameAt(a, m, p) {
      TempsApart(p, u, t);
    }
  }

  lemma TempsApart(p: Path, u: int, t: WallpaperType)
    requires p in UserDirs(u)
    ensures !Below(p, GetWallpaperDir(u, t)) && !IsTemp(p) && p != StatePath(u)
  {
    Layout(u, t);
    UserDirsInside(u);
    if Below(p, GetWallpaperDir(u, t)) { TypeDirInUserDir(p, u, t); }
  }

  /** The colour of a failed picture is looked up in an entry that is missing: the user is set up afresh. */
  lemma MissingThenInit(setup: Setup, a: State, m: State, b: State, u: int, t: WallpaperType)
    requires Spoiled(setup, a, m, u, t) && m == a.(disk := m.disk) && InitOutcome(setup, m, b, u)
    ensures if u < 0 then Spoiled(setup, a, b, u, t) else Wiped(setup, a, b, u)
  {
    hide Rebuild, InitDone;
    Layout(u, t);
    KeptStateFits(setup, a.disk, m.disk, u);
    if u >= 0 {
      assert OnlyUserDirsAdded(a.disk, b.disk, u) by { UserDirsApart(a.disk, m.disk, b.disk, u, t); }
      forall p | !Inside(p, UserDir(u)) && !IsTemp(p) ensures SameAt(a.disk, b.disk, p) {
        assert SameAt(a.disk, m.disk, p) && SameAt(m.disk, b.disk, p);
      }
      forall s: Slot | s.userId != u ensures SameEntry(a, b, s) {
        assert SameEntry(m, b, s);
      }
    }
  }

  lemma ClearingSpoils(setup: Setup, a: State, d: Disk, u: int, t: WallpaperType)
    requires Touched(a.disk, d, u, t) && SameAt(a.disk, d, StatePath(u)) && d.dirs <= a.disk.dirs
    ensures Spoiled(setup, a, a.(disk := d), u, t)
  {
  }

  lemma FirstFillSpoils(setup: Setup, a: State, d1: Disk, d2: Disk, u: int, t: WallpaperType)
    requires Touched(a.disk, d2, u, t) && SameAt(a.disk, d2, StatePath(u)) && d2.dirs <= a.disk.dirs
    ensures Spoiled(setup, a, Fill(setup, a.(disk := d1), u, t).Id().(disk := d2), u, t)
  {
    RebuildIsFresh(setup, d1, u, t);
  }

  lemma FillSpoils(setup: Setup, a: State, m: State, d: Disk, u: int, t: WallpaperType)
    requires Spoiled(setup, a, m, u, t) && Touched(a.disk, d, u, t) && StateKept(a.disk, d, u) && d.dirs <= a.disk.dirs
    requires Rebuild(setup, m.disk, u, OtherType(t)) == Rebuild(setup, d, u, OtherType(t))
    ensures Spoiled(setup, a, FillBoth(setup, m, u).(disk := d), u, t)
  {
    hide FillBoth, Rebuild, IsFresh, StateKept;
    FillBothFacts(setup, m, u);
    var f := FillBoth(setup, m, u);
    forall x: Slot
      ensures x in a.entries ==> x in f.entries && f.entries[x] == a.entries[x]
      ensures x in f.entries && x !in a.entries ==> x.userId == u && IsFresh(f.entries[x], x)
    {
      if x.userId == u {
        RebuildIsFresh(setup, m.disk, u, x.wallpaperType);
        assert x == Slot(u, x.wallpaperType) && f.At(u, x.wallpaperType) == Current(setup, m, u, x.wallpaperType);
      } else {
        assert SameEntry(m, f, x);
      }
    }
    forall k | k != t && !a.Has(u, k) ensures f.At(u, k) == Rebuild(setup, d, u, k) {
      assert k == OtherType(t) && f.At(u, k) == Current(setup, m, u, k);
    }
  }

  lemma PublishedEntries(setup: Setup, a: State, d1: Disk, d2: Disk, d3: Disk, u: int, t: WallpaperType,
                         res: ResourceType)
    requires WellFormed(a)
    requires !Exists(d1, PicturePath(u, t, Normal, Port))
    requires Rebuild(setup, d2, u, OtherType(t)) == Rebuild(setup, d3, u, OtherType(t))
    requires Installed(a.disk, d3, u, t, TargetPath(u, t, res), Content(a.disk, TMP), NewText(setup, a, u, t, res))
    ensures var m := Fill(setup, a.(disk := d1), u, t).Id().(disk := d2);
            SetDone(setup, a, FillBoth(setup, m, u).(disk := d3).With(u, t, NewEntry(m, u, t, res)), u, t, res,
                    Content(a.disk, TMP))
  {
    hide Installed, TargetPath, NewText, IsTree, PicturesFor, Fill, FillBoth, WellFormed, OtherUsersKept;
    var c := a.(disk := d1);
    var m := Fill(setup, c, u, t).Id().(disk := d2);
    var f := FillBoth(setup, m, u);
    var k := OtherType(t);
    FillFacts(setup, c, u, t);
    FillBothFacts(setup, m, u);
    RebuiltDefault(setup, d1, u, t);
    assert SameEntry(c, Fill(setup, c, u, t), Slot(u, k));
    assert f.At(u, k) == if a.Has(u, k) then a.At(u, k) else Rebuild(setup, d3, u, k);
    EntriesAreOk(a, u, t);
    PublishedOthers(setup, a, d1, d2, d3, u, t, NewEntry(m, u, t, res));
  }

  lemma PublishedOthers(setup: Setup, a: State, d1: Disk, d2: Disk, d3: Disk, u: int, t: WallpaperType,
                        e: WallpaperData)
    ensures var m := Fill(setup, a.(disk := d1), u, t).Id().(disk := d2);
            OtherUsersKept(a, FillBoth(setup, m, u).(disk := d3).With(u, t, e), u)
  {
    var c := a.(disk := d1);
    var m := Fill(setup, c, u, t).Id().(disk := d2);
    var f := FillBoth(setup, m, u);
    FillFacts(setup, c, u, t);
    FillBothFacts(setup, m, u);
    hide Fill, FillBoth;
    forall x: Slot | x.userId != u ensures SameEntry(a, f, x) {
      assert SameEntry(c, Fill(setup, c, u, t), x) && SameEntry(m, f, x);
    }
  }

  lemma OtherRebuildUntouched(setup: Setup, a: Disk, b: Disk, u: int, t: WallpaperType)
    requires Touched(a, b, u, t)
    ensures Rebuild(setup, a, u, OtherType(t)) == Rebuild(setup, b, u, OtherType(t))
  {
    OtherDirUntouched(a, b, u, t);
    SamePictures(setup, a, b, u, OtherType(t));
  }

  lemma Unchanged(d: Disk, u: int, t: WallpaperType)
    ensures Touched(d, d, u, t) && SameAt(d, d, StatePath(u))
  {
  }

  /** The file a set writes lies in its own directory. */
  lemma TargetInDir(setup: Setup, a: State, d: Disk, u: int, t: WallpaperType, res: ResourceType)
    requires WellFormed(a)
    ensures var m := Fill(setup, a.(disk := d), u, t);
            TargetPath(u, t, res) != TMP && Below(TargetPath(u, t, res), GetWallpaperDir(u, t)) &&
            m.At(u, t).liveWallpaperFile == LivePath(u, t) && m.At(u, t).customPackageUri == PackagePath(u, t)
  {
    Layout(u, t);
    assert a.Has(u, t) ==> EntryOk(a.At(u, t), Slot(u, t));
  }

  lemma SameText(setup: Setup, a: State, d1: Disk, d2: Disk, u: int, t: WallpaperType, res: ResourceType)
    ensures NewText(setup, Fill(setup, a.(disk := d1), u, t).Id().(disk := d2), u, t, res) ==
            NewText(setup, a, u, t, res)
    ensures |NewText(setup, a, u, t, res)| == StateLength(setup.template)
  {
    hide PicturesFor;
    FillFacts(setup, a.(disk := d1), u, t);
    assert SameEntry(a, Fill(setup, a.(disk := d1), u, t), Slot(u, OtherType(t)));
  }

  // ----- setting up a user -----

  /** A write that only concerns the temporary file changes nothing else. */
  lemma TempWritten(setup: Setup, a: State, d: Disk, u: int, bytes: Bytes, ok: bool)
    requires WellFormed(a) && Written(a.disk, d, TMP, bytes, ok) && IsTree(d)
    ensures WellFormed(a.(disk := d)) && Refused(setup, a, a.(disk := d), u)
    ensures ok ==> Content(d, TMP) == Overwrite(Content(a.disk, TMP), bytes)
  {
    TempWrittenIsRefusal(setup, a, d, u, bytes, ok);
    hide Written, Refused;
  }

  lemma TempWrittenIsRefusal(setup: Setup, a: State, d: Disk, u: int, bytes: Bytes, ok: bool)
    requires Written(a.disk, d, TMP, bytes, ok)
    ensures Refused(setup, a, a.(disk := d), u)
    ensures ok ==> Content(d, TMP) == Overwrite(Content(a.disk, TMP), bytes)
  {
    hide Rebuild;
    assert forall p :: p != TMP ==> SameAt(a.disk, d, p);
    assert SameAt(a.disk, d, StatePath(u));
  }

  lemma TempThenBackup(setup: Setup, a: State, m: State, b: State, u: int, t: WallpaperType, res: ResourceType,
                       bytes: Bytes, code: ErrorCode)
    requires m == a.(disk := m.disk) && Written(a.disk, m.disk, TMP, bytes, true)
    requires code == NO_ERROR ==> SetDone(setup, m, b, u, t, res, Content(m.disk, TMP))
    requires code != NO_ERROR ==> Spoiled(setup, m, b, u, t)
    ensures code == NO_ERROR ==> b.Has(u, t) && SetDone(setup, a, b, u, t, res, Overwrite(Content(a.disk, TMP), bytes))
    ensures code != NO_ERROR ==> Spoiled(setup, a, b, u, t)
  {
    hide TargetPath, Rebuild, NewText, PicturesFor, NewEntry;
    assert forall p :: p != TMP ==> SameAt(a.disk, m.disk, p);
    assert SameAt(a.disk, m.disk, StatePath(u));
    if code == NO_ERROR {
      Layout(u, t);
      SameTextAcross(setup, a, m, u, t, res);
      forall p | p != TMP && p != StatePath(u) && !Below(p, GetWallpaperDir(u, t)) ensures SameAt(a.disk, b.disk, p) {
        assert SameAt(a.disk, m.disk, p) && SameAt(m.disk, b.disk, p);
      }
    } else {
      forall p | !Below(p, GetWallpaperDir(u, t)) && !IsTemp(p) && p != StatePath(u) ensures SameAt(a.disk, b.disk, p) {
        assert SameAt(a.disk, m.disk, p) && SameAt(m.disk, b.disk, p);
      }
    }
  }

  // ----- reset -----

  /** The disk after clearing and the state file after saving, with both entries filled in. */
  lemma ResetByParts(setup: Setup, a: State, d1: Disk, d2: Disk, u: int, t: WallpaperType)
    requires IsTree(a.disk) && DirDeleted(a.disk, d1, GetWallpaperDir(u, t), false, true)
    requires Written(d1, d2, StatePath(u), NewText(setup, a, u, t, RES_DEFAULT), true)
    ensures var m := Fill(setup, a, u, t).(disk := d1);
            var data := WallpaperData(u, GetWallpaperDefaultPath(setup, t), LivePath(u, t), PackagePath(u, t), -1,
                                      true, RES_DEFAULT);
            ResetDone(setup, a, FillBoth(setup, m, u).(disk := d2).With(u, t, data), u, t)
  {
    hide NewText, PicturesFor, GetWallpaperDefaultPath, Fill, FillBoth;
    var m := Fill(setup, a, u, t).(disk := d1);
    var f := FillBoth(setup, m, u);
    var k := OtherType(t);
    Layout(u, t);
    ClearedIsTouched(a.disk, d1, u, t, true);
    WriteIsTouched(a.disk, d1, d2, u, t, NewText(setup, a, u, t, RES_DEFAULT), true);
    FillFacts(setup, a, u, t);
    FillBothFacts(setup, m, u);
    OtherRebuildUntouched(setup, d1, d2, u, t);
    assert SameEntry(a, Fill(setup, a, u, t), Slot(u, k));
    assert f.At(u, k) == if a.Has(u, k) then a.At(u, k) else Rebuild(setup, d2, u, k);
    forall x: Slot | x.userId != u ensures SameEntry(a, f, x) {
      assert SameEntry(a, Fill(setup, a, u, t), x) && SameEntry(m, f, x);
    }
    forall p | Below(p, GetWallpaperDir(u, t)) ensures !Exists(d2, p) {
      assert !Exists(d1, p);
    }
    forall p | !Below(p, GetWallpaperDir(u, t)) && p != StatePath(u) ensures SameAt(a.disk, d2, p) {
      assert Inside(p, GetWallpaperDir(u, t)) ==> p == GetWallpaperDir(u, t);
      assert SameAt(a.disk, d1, p) && SameAt(d1, d2, p);
    }
  }

  /** Clearing after the entry was looked up, as a reset does. */
  lemma LookupThenClear(setup: Setup, a: State, d1: Disk, u: int, t: WallpaperType)
    requires Touched(a.disk, d1, u, t) && SameAt(a.disk, d1, StatePath(u)) && d1.dirs <= a.disk.dirs
    ensures Spoiled(setup, a, Fill(setup, a, u, t).(disk := d1), u, t)
  {
    RebuildIsFresh(setup, a.disk, u, t);
  }

  lemma NothingToReset(a: Disk, b: Disk, u: int, t: WallpaperType, ok: bool)
    requires IsTree(a) && DirDeleted(a, b, GetWallpaperDir(u, t), false, ok)
    ensures GetWallpaperDir(u, t) !in a.dirs ==> !ok && b == a
  {
    if GetWallpaperDir(u, t) !in a.dirs { NothingToDelete(a, b, GetWallpaperDir(u, t), false, ok); }
  }

  lemma ResetHas(setup: Setup, a: State, b: State, u: int, t: WallpaperType)
    requires ResetDone(setup, a, b, u, t)
    ensures b.Has(u, t)
  {
  }

  // ----- a custom package -----

  lemma SetIssues(setup: Setup, a: State, b: State, u: int, allowed: bool, content: Bytes, wallpaperType: int,
                  length: int, res: ResourceType, code: ErrorCode)
    requires SetOutcome(setup, a, b, u, allowed, content, wallpaperType, length, res, code)
    ensures a.issued <= b.issued
  {
  }

  lemma NotSaved(setup: Setup, a: State, d: Disk, u: int, t: WallpaperType)
    requires Written(a.disk, d, StatePath(u), NewText(setup, a, u, t, RES_PACKAGE), false)
    ensures Refused(setup, a, FillBoth(setup, a, u).(disk := d), u)
  {
    hide NewText, Fill, FillBoth;
    FillBothFacts(setup, a, u);
    assert forall p :: p != StatePath(u) ==> SameAt(a.disk, d, p);
    RebuiltElsewhere(setup, a.disk, d, u);
    FilledGrew(setup, a, d, u);
    hide Grew;
    var f := FillBoth(setup, a, u);
    forall k | !a.Has(u, k) ensures f.At(u, k) == Rebuild(setup, d, u, k) {
      assert f.At(u, k) == Current(setup, a, u, k);
    }
  }

  lemma MissingCannotSave(setup: Setup, a: State, d: Disk, u: int, t: WallpaperType, ok: bool)
    requires IsTree(a.disk) && IsTree(d) && Written(a.disk, d, StatePath(u), NewText(setup, a, u, t, RES_PACKAGE), ok)
    ensures !Writable(a.disk, StatePath(u)) ==> !ok && d == a.disk
    ensures ok ==> Writable(a.disk, StatePath(u)) && FillBoth(setup, a, u).(disk := d) == Announced(setup, a, u, t)
  {
    hide NewText, FillBoth;
    FillBothFacts(setup, a, u);
    if !Writable(a.disk, StatePath(u)) {
      UnwritableUntouched(a.disk, d, StatePath(u), NewText(setup, a, u, t, RES_PACKAGE), ok);
    }
  }

  lemma MissingStays(a: Disk, d: Disk, u: int, v: int, t: WallpaperType, bytes: Bytes, ok: bool)
    requires SlotMissing(a, u, t) && Written(a, d, StatePath(v), bytes, ok)
    ensures SlotMissing(d, u, t)
  {
  }

  /** The inner set of a package whose slot has no directory. */
  lemma MissingInner(setup: Setup, m: State, n: State, u: int, allowed: bool, content: Bytes, wallpaperType: int,
                     length: int, code: ErrorCode)
    requires SetOutcome(setup, m, n, u, allowed, content, wallpaperType, length, RES_PACKAGE, code)
    requires code == SetMissingAnswer(allowed, content, wallpaperType, length, RES_PACKAGE)
    requires SetAnswer(allowed, content, wallpaperType, length, RES_PACKAGE) == NO_ERROR ==>
               MissingOutcome(setup, m, n, u, TypeOf(wallpaperType), RES_PACKAGE, Buffered(content, length), code)
    ensures n == if SetAnswer(allowed, content, wallpaperType, length, RES_PACKAGE) == NO_ERROR && length >= 0 then
                   LeftInTemp(m, Buffered(content, length))
                 else m
  {
    hide SetDone, Refused, Spoiled, Wiped, Buffered, Overwrite;
  }
}
