/** The in-memory index against the disk over whole runs: what a restart would rebuild, and whether the
    file an entry points to is there. */
module IndexRuns {
  import opened Paths
  import opened FileDeal
  import opened StateFile
  import opened ServiceState
  import opened Places
  import opened EntryFacts
  import opened SlotSteps
  import opened ListSteps
  import opened UserSteps
  import opened ServiceRuns
  import opened Isolation

  // ----- agreement -----

  predicate IsStill(d: WallpaperData) {
    d.resourceType.RES_PICTURE? || d.resourceType.RES_DEFAULT?
  }

  /** The six paths of a still-picture entry are the ones a restart would find. */
  ghost predicate SlotAgrees(setup: Setup, s: State, x: Slot) {
    x in s.entries && IsStill(s.entries[x]) ==>
      s.entries[x].pictures == PicturesFor(setup, s.disk, x.userId, x.wallpaperType)
  }

  ghost predicate Agrees(setup: Setup, s: State) {
    forall x: Slot :: SlotAgrees(setup, s, x)
  }

  ghost predicate SamePicturesAt(a: Disk, b: Disk, x: Slot) {
    forall f, r :: SameAt(a, b, PicturePath(x.userId, x.wallpaperType, f, r))
  }

  lemma KeptAgrees(setup: Setup, a: State, b: State, x: Slot)
    requires SlotAgrees(setup, a, x) && SameEntry(a, b, x) && SamePicturesAt(a.disk, b.disk, x)
    ensures SlotAgrees(setup, b, x)
  {
    SamePictures(setup, a.disk, b.disk, x.userId, x.wallpaperType);
  }

  lemma RebuiltAgrees(setup: Setup, b: State, x: Slot)
    requires IsRebuilt(setup, b, x)
    ensures SlotAgrees(setup, b, x)
  {
  }

  lemma SamePaths(p: Pictures, q: Pictures)
    requires forall f, r :: p.At(f, r) == q.At(f, r)
    ensures p == q
  {
    assert p.At(Normal, Port) == q.At(Normal, Port) && p.At(Normal, Land) == q.At(Normal, Land);
    assert p.At(Unfold1, Port) == q.At(Unfold1, Port) && p.At(Unfold1, Land) == q.At(Unfold1, Land);
    assert p.At(Unfold2, Port) == q.At(Unfold2, Port) && p.At(Unfold2, Land) == q.At(Unfold2, Land);
  }

  lemma OnDiskAt(d: Disk, u: int, t: WallpaperType, f: FoldState, r: RotateState)
    ensures PicturesOnDisk(d, u, t).At(f, r) == GetExistFilePath(d, PicturePath(u, t, f, r))
  {
  }

  /** Pictures of a slot other than `z` are outside the directory of `z` and are not state or temporary files. */
  lemma PicturesElsewhere(z: Slot, x: Slot)
    requires x != z
    ensures forall f, r :: var p := PicturePath(x.userId, x.wallpaperType, f, r);
              !Below(p, GetWallpaperDir(z.userId, z.wallpaperType)) && !IsTemp(p) && p != StatePath(z.userId)
  {
    forall f, r ensures var p := PicturePath(x.userId, x.wallpaperType, f, r);
      !Below(p, GetWallpaperDir(z.userId, z.wallpaperType)) && !IsTemp(p) && p != StatePath(z.userId)
    {
      var p := PicturePath(x.userId, x.wallpaperType, f, r);
      Layout(x.userId, x.wallpaperType);
      if Below(p, GetWallpaperDir(z.userId, z.wallpaperType)) {
        DistinctTypes(p, z.userId, z.wallpaperType, x.userId, x.wallpaperType);
      }
    }
  }

  lemma TouchedElsewhere(a: Disk, b: Disk, z: Slot, x: Slot)
    requires x != z && Touched(a, b, z.userId, z.wallpaperType)
    ensures SamePicturesAt(a, b, x)
  {
    PicturesElsewhere(z, x);
  }

  /** One slot was set and agrees; the others were kept or rebuilt. */
  lemma OneSlotAgrees(setup: Setup, a: State, b: State, z: Slot)
    requires Agrees(setup, a) && Touched(a.disk, b.disk, z.userId, z.wallpaperType) && SlotAgrees(setup, b, z)
    requires forall x: Slot :: x != z ==> SameEntry(a, b, x) || IsRebuilt(setup, b, x)
    ensures Agrees(setup, b)
  {
    forall x: Slot ensures SlotAgrees(setup, b, x) {
      if x != z {
        if IsRebuilt(setup, b, x) {
          RebuiltAgrees(setup, b, x);
        } else {
          TouchedElsewhere(a.disk, b.disk, z, x);
          assert SlotAgrees(setup, a, x);
          KeptAgrees(setup, a, b, x);
        }
      }
    }
  }

  lemma RefusedAgrees(setup: Setup, a: State, b: State, u: int)
    requires Agrees(setup, a) && Refused(setup, a, b, u)
    ensures Agrees(setup, b)
  {
    hide StateKept, PicturesFor;
    forall x: Slot ensures SlotAgrees(setup, b, x) {
      forall f, r ensures SameAt(a.disk, b.disk, PicturePath(x.userId, x.wallpaperType, f, r)) {
        Layout(x.userId, x.wallpaperType);
      }
      assert x == Slot(x.userId, x.wallpaperType);
      if x in b.entries && x !in a.entries {
        assert b.Has(u, x.wallpaperType) && !a.Has(u, x.wallpaperType);
        RebuiltAgrees(setup, b, x);
      } else {
        assert SlotAgrees(setup, a, x);
        KeptAgrees(setup, a, b, x);
      }
    }
  }

  lemma SetDoneAgrees(setup: Setup, a: State, b: State, z: Slot, res: ResourceType, bytes: Bytes)
    requires Agrees(setup, a) && SetDone(setup, a, b, z.userId, z.wallpaperType, res, bytes)
    ensures Agrees(setup, b)
  {
    hide Below, SameAt, Agrees, GetWallpaperDefaultPath;
    var u, t := z.userId, z.wallpaperType;
    assert z == Slot(u, t);
    Layout(u, t);
    assert Touched(a.disk, b.disk, u, t);
    TwoSlots(u);
    forall x: Slot | x != z ensures SameEntry(a, b, x) || IsRebuilt(setup, b, x) {
      if x.userId == u { assert x == Slot(u, OtherType(t)); }
    }
    if res.RES_PICTURE? || res.RES_DEFAULT? {
      forall f, r | (f, r) != (Normal, Port) ensures !Exists(b.disk, PicturePath(u, t, f, r)) {
        assert PicturePath(u, t, f, r) != TargetPath(u, t, res);
      }
      assert PicturesOnDisk(b.disk, u, t) == Only(PicturePath(u, t, Normal, Port));
    }
    OneSlotAgrees(setup, a, b, z);
  }

  lemma ResetDoneAgrees(setup: Setup, a: State, b: State, z: Slot)
    requires Agrees(setup, a) && ResetDone(setup, a, b, z.userId, z.wallpaperType)
    ensures Agrees(setup, b)
  {
    hide Below, SameAt, Agrees, GetWallpaperDefaultPath;
    var u, t := z.userId, z.wallpaperType;
    assert z == Slot(u, t);
    Layout(u, t);
    assert Touched(a.disk, b.disk, u, t);
    TwoSlots(u);
    forall x: Slot | x != z ensures SameEntry(a, b, x) || IsRebuilt(setup, b, x) {
      if x.userId == u { assert x == Slot(u, OtherType(t)); }
    }
    assert !Exists(b.disk, PicturePath(u, t, Normal, Port));
    OneSlotAgrees(setup, a, b, z);
  }

  lemma ListedExists(setup: Setup, a: State, b: State, u: int, t: WallpaperType, items: seq<Item>)
    requires SetAllDone(setup, a, b, u, t, items) && HoldsOnly(b.disk, u, t, items)
    ensures forall f, r :: Exists(b.disk, PicturePath(u, t, f, r)) <==> Listed(items, f, r)
  {
    hide SameAt, DistinctScreens, PicturesSet;
    Layout(u, t);
    forall f, r ensures Exists(b.disk, PicturePath(u, t, f, r)) <==> Listed(items, f, r) {
      var p := PicturePath(u, t, f, r);
      assert Listed(items, f, r) <==> IsTargetOf(items, u, t, p) by {
        forall i | 0 <= i < |items| ensures IsFor(items[i], f, r) <==> items[i].Target(u, t) == p {}
      }
    }
  }

  lemma AllListedAgrees(setup: Setup, a: State, b: State, z: Slot, items: seq<Item>)
    requires SetAllDone(setup, a, b, z.userId, z.wallpaperType, items)
    requires HoldsOnly(b.disk, z.userId, z.wallpaperType, items) && Listed(items, Normal, Port)
    ensures SlotAgrees(setup, b, z)
  {
    hide SameAt, DistinctScreens, Listed, HoldsOnly;
    var u, t := z.userId, z.wallpaperType;
    assert z == Slot(u, t);
    ListedExists(setup, a, b, u, t, items);
    var portrait :| IsPortrait(portrait, z) && PicturesSet(Only(portrait), b.At(u, t).pictures, u, t, items);
    var ps, qs := b.At(u, t).pictures, PicturesOnDisk(b.disk, u, t);
    forall f, r ensures ps.At(f, r) == qs.At(f, r) {
      OnDiskAt(b.disk, u, t, f, r);
      assert Exists(b.disk, PicturePath(u, t, f, r)) <==> Listed(items, f, r);
    }
    SamePaths(ps, qs);
    assert Exists(b.disk, PicturePath(u, t, Normal, Port));
  }

  /** After a SetAllWallpapers, also when the directory could not be cleared, the entry is what a restart
      would rebuild exactly when it shows a portrait that is there and every other picture that is there
      was listed. */
  lemma SetAllAgreesExactly(setup: Setup, a: State, b: State, z: Slot, items: seq<Item>)
    requires |items| > 0 && SetAllDone(setup, a, b, z.userId, z.wallpaperType, items)
    ensures var (u, t) := (z.userId, z.wallpaperType);
            SlotAgrees(setup, b, z) <==>
              && b.entries[z].pictures.wallpaperFile == PicturePath(u, t, Normal, Port)
              && Exists(b.disk, PicturePath(u, t, Normal, Port))
              && forall f, r :: (f, r) != (Normal, Port) && Exists(b.disk, PicturePath(u, t, f, r)) ==>
                Listed(items, f, r)
  {
    hide SameAt, DistinctScreens;
    var u, t := z.userId, z.wallpaperType;
    assert z == Slot(u, t);
    var portrait :| IsPortrait(portrait, z) && PicturesSet(Only(portrait), b.At(u, t).pictures, u, t, items);
    var ps, qs := b.At(u, t).pictures, PicturesOnDisk(b.disk, u, t);
    TargetsThere(setup, a, b, u, t, items);
    DefaultPictures(setup, t);
    var i := items[0];
    assert IsFor(i, i.foldState, i.rotateState) && Listed(items, i.foldState, i.rotateState);
    assert ps.At(i.foldState, i.rotateState).Child?;
    hide Listed, GetWallpaperDefaultPath, SetAllDone, PicturesSet, PicturesOnDisk;
    forall f, r ensures ps.At(f, r) == qs.At(f, r) <==> PictureRight(b.disk, u, t, items, portrait, f, r) {
      PictureRightExactly(b.disk, u, t, items, portrait, ps, f, r);
    }
    if forall f, r :: ps.At(f, r) == qs.At(f, r) {
      SamePaths(ps, qs);
    }
    PictureRightExactly(b.disk, u, t, items, portrait, ps, Normal, Port);
    assert ps.wallpaperFile == ps.At(Normal, Port) && qs.wallpaperFile == qs.At(Normal, Port);
    OnDiskAt(b.disk, u, t, Normal, Port);
    assert PictureRight(b.disk, u, t, items, portrait, Normal, Port) <==> ps.wallpaperFile == qs.wallpaperFile;
  }

  predicate PictureRight(d: Disk, u: int, t: WallpaperType, items: seq<Item>, portrait: Path, f: FoldState,
                         r: RotateState) {
    if Listed(items, f, r) then true
    else if (f, r) == (Normal, Port) then portrait == GetExistFilePath(d, PicturePath(u, t, f, r))
    else !Exists(d, PicturePath(u, t, f, r))
  }

  lemma PictureRightExactly(d: Disk, u: int, t: WallpaperType, items: seq<Item>, portrait: Path, ps: Pictures,
                            f: FoldState, r: RotateState)
    requires PicturesSet(Only(portrait), ps, u, t, items)
    requires Listed(items, f, r) ==> Exists(d, PicturePath(u, t, f, r))
    ensures ps.At(f, r) == PicturesOnDisk(d, u, t).At(f, r) <==> PictureRight(d, u, t, items, portrait, f, r)
  {
    OnDiskAt(d, u, t, f, r);
    hide Listed, PicturesOnDisk;
  }

  lemma TargetsThere(setup: Setup, a: State, b: State, u: int, t: WallpaperType, items: seq<Item>)
    requires SetAllDone(setup, a, b, u, t, items)
    ensures forall f, r :: Listed(items, f, r) ==> Exists(b.disk, PicturePath(u, t, f, r))
  {
    hide SameAt, DistinctScreens, PicturesSet;
    forall f, r | Listed(items, f, r) ensures Exists(b.disk, PicturePath(u, t, f, r)) {
      var i :| 0 <= i < |items| && IsFor(items[i], f, r);
      assert items[i].Target(u, t) == PicturePath(u, t, f, r);
    }
  }

  /** So where the clearing worked the entry is right if and only if the normal portrait was listed. */
  lemma ClearedSetAllAgreesExactly(setup: Setup, a: State, b: State, z: Slot, items: seq<Item>)
    requires |items| > 0 && SetAllDone(setup, a, b, z.userId, z.wallpaperType, items)
    requires HoldsOnly(b.disk, z.userId, z.wallpaperType, items)
    ensures SlotAgrees(setup, b, z) <==> Listed(items, Normal, Port)
  {
    if Listed(items, Normal, Port) {
      AllListedAgrees(setup, a, b, z, items);
    } else {
      ListedExists(setup, a, b, z.userId, z.wallpaperType, items);
      SetAllAgreesExactly(setup, a, b, z, items);
    }
  }

  lemma SetAllDoneAgrees(setup: Setup, a: State, b: State, z: Slot, items: seq<Item>)
    requires Agrees(setup, a) && SetAllDone(setup, a, b, z.userId, z.wallpaperType, items)
    requires HoldsOnly(b.disk, z.userId, z.wallpaperType, items) && Listed(items, Normal, Port)
    ensures Agrees(setup, b)
  {
    AllListedAgrees(setup, a, b, z, items);
    hide SameAt, DistinctScreens, PicturesSet, Below, SlotAgrees, Agrees, HoldsOnly, Listed;
    TempsAreTemps(items, z.userId, z.wallpaperType);
    assert z == Slot(z.userId, z.wallpaperType);
    assert Touched(a.disk, b.disk, z.userId, z.wallpaperType);
    OneSlotAgrees(setup, a, b, z);
  }

  /** Pictures that were right for one disk are right for another exactly when the same pictures are there,
      or, where the built-in set is shown, when there still is no portrait. */
  lemma StillRightExactly(setup: Setup, a: Disk, b: Disk, u: int, t: WallpaperType)
    ensures PicturesFor(setup, a, u, t) == PicturesFor(setup, b, u, t) <==>
            if Exists(a, PicturePath(u, t, Normal, Port)) then
              forall f, r :: Exists(b, PicturePath(u, t, f, r)) <==> Exists(a, PicturePath(u, t, f, r))
            else
              !Exists(b, PicturePath(u, t, Normal, Port))
  {
    hide GetWallpaperDefaultPath;
    DefaultPictures(setup, t);
    var portrait := PicturePath(u, t, Normal, Port);
    assert PicturesOnDisk(a, u, t).wallpaperFile == GetExistFilePath(a, portrait);
    assert PicturesOnDisk(b, u, t).wallpaperFile == GetExistFilePath(b, portrait);
    if Exists(a, portrait) {
      if PicturesOnDisk(a, u, t) == PicturesOnDisk(b, u, t) {
        forall f, r ensures Exists(b, PicturePath(u, t, f, r)) <==> Exists(a, PicturePath(u, t, f, r)) {
          OnDiskAt(a, u, t, f, r);
          OnDiskAt(b, u, t, f, r);
        }
      }
      if forall f, r :: Exists(b, PicturePath(u, t, f, r)) <==> Exists(a, PicturePath(u, t, f, r)) {
        SameExistence(a, b, u, t);
      }
    }
  }

  /** A failed request leaves the entry of a still picture as it was; the index is then right exactly when
      the same pictures are there, or, if the built-in set was shown, when no portrait has appeared. */
  lemma FailedAgreesExactly(setup: Setup, a: State, b: State, u: int, t: WallpaperType)
    requires a.Has(u, t) && (Spoiled(setup, a, b, u, t) || Refused(setup, a, b, u))
    requires SlotAgrees(setup, a, Slot(u, t)) && IsStill(a.At(u, t))
    ensures SlotAgrees(setup, b, Slot(u, t)) <==>
            if Exists(a.disk, PicturePath(u, t, Normal, Port)) then
              forall f, r :: Exists(b.disk, PicturePath(u, t, f, r)) <==> Exists(a.disk, PicturePath(u, t, f, r))
            else
              !Exists(b.disk, PicturePath(u, t, Normal, Port))
  {
    hide SameAt, StateKept, PicturesFor;
    StillRightExactly(setup, a.disk, b.disk, u, t);
  }

  lemma SameExistence(a: Disk, b: Disk, u: int, t: WallpaperType)
    requires forall f, r :: Exists(b, PicturePath(u, t, f, r)) <==> Exists(a, PicturePath(u, t, f, r))
    ensures PicturesOnDisk(a, u, t) == PicturesOnDisk(b, u, t)
    ensures Exists(b, PicturePath(u, t, Normal, Port)) <==> Exists(a, PicturePath(u, t, Normal, Port))
  {
    forall f, r ensures PicturesOnDisk(a, u, t).At(f, r) == PicturesOnDisk(b, u, t).At(f, r) {
      OnDiskAt(a, u, t, f, r);
      OnDiskAt(b, u, t, f, r);
    }
    SamePaths(PicturesOnDisk(a, u, t), PicturesOnDisk(b, u, t));
  }

  lemma InitAgrees(setup: Setup, a: State, b: State, u: int)
    requires Agrees(setup, a) && InitOutcome(setup, a, b, u) && u >= 0 && InitDone(setup, b, u)
    ensures Agrees(setup, b)
  {
    hide StateKept, PicturesFor;
    forall x: Slot ensures SlotAgrees(setup, b, x) {
      assert x == Slot(x.userId, x.wallpaperType);
      if x.userId == u {
        assert b.Has(u, x.wallpaperType);
        RebuiltAgrees(setup, b, x);
      } else {
        OtherUserPictures(a.disk, b.disk, x, u);
        assert SlotAgrees(setup, a, x);
        KeptAgrees(setup, a, b, x);
      }
    }
  }

  lemma OtherUserPictures(a: Disk, b: Disk, x: Slot, u: int)
    requires x.userId != u && forall p :: !Inside(p, UserDir(u)) ==> SameAt(a, b, p)
    ensures SamePicturesAt(a, b, x)
  {
    forall f, r ensures SameAt(a, b, PicturePath(x.userId, x.wallpaperType, f, r)) {
      Layout(x.userId, x.wallpaperType);
      var p := PicturePath(x.userId, x.wallpaperType, f, r);
      if Inside(p, UserDir(u)) { DistinctUsers(p, u, x.userId); }
    }
  }

  lemma RemoveAgrees(setup: Setup, a: State, b: State, u: int)
    requires Agrees(setup, a) && RemoveOutcome(a, b, u)
    ensures Agrees(setup, b)
  {
    hide PicturesFor;
    if u >= 0 {
      forall x: Slot ensures SlotAgrees(setup, b, x) {
        assert x == Slot(x.userId, x.wallpaperType);
        if x.userId == u {
          assert !b.Has(u, x.wallpaperType);
        } else {
          OtherUserPictures(a.disk, b.disk, x, u);
          assert SlotAgrees(setup, a, x);
          KeptAgrees(setup, a, b, x);
        }
      }
    }
  }

  lemma ScaffoldAgrees(setup: Setup, a: State, b: State)
    requires Agrees(setup, a) && ScaffoldOnly(a.disk, b.disk)
    requires forall x: Slot :: x in b.entries ==> SameEntry(a, b, x) || IsRebuilt(setup, b, x)
    ensures Agrees(setup, b)
  {
    hide PicturesFor;
    forall x: Slot ensures SlotAgrees(setup, b, x) {
      if x in b.entries {
        if IsRebuilt(setup, b, x) {
          RebuiltAgrees(setup, b, x);
        } else {
          assert SlotAgrees(setup, a, x) && SamePicturesAt(a.disk, b.disk, x);
          KeptAgrees(setup, a, b, x);
        }
      }
    }
  }

  lemma FillAgrees(setup: Setup, a: State, m: State, u: int)
    requires Agrees(setup, a) && m == FillBoth(setup, a, u).(disk := m.disk)
    requires forall p :: p != StatePath(u) ==> SameAt(a.disk, m.disk, p)
    ensures Agrees(setup, m)
  {
    hide FillBoth, PicturesFor;
    FillBothFacts(setup, a, u);
    RebuiltElsewhere(setup, a.disk, m.disk, u);
    var f := FillBoth(setup, a, u);
    assert m.entries == f.entries;
    forall k ensures m.Has(u, k) && m.At(u, k) == Current(setup, a, u, k) {
      assert f.Has(u, k) && f.At(u, k) == Current(setup, a, u, k);
    }
    forall x: Slot ensures SlotAgrees(setup, m, x) {
      assert x == Slot(x.userId, x.wallpaperType);
      assert SlotAgrees(setup, a, x) && SamePicturesAt(a.disk, m.disk, x);
      if x.userId == u && x !in a.entries {
        assert m.At(u, x.wallpaperType) == Current(setup, a, u, x.wallpaperType);
        RebuiltAgrees(setup, m, x);
      } else {
        assert x.userId == u ==> m.At(u, x.wallpaperType) == Current(setup, a, u, x.wallpaperType);
        assert x.userId != u ==> SameEntry(a, FillBoth(setup, a, u), x);
        KeptAgrees(setup, a, m, x);
      }
    }
  }

  /** A package entry is not compared with the disk, so it does not matter how the inner set ended. */
  lemma PackageAgrees(setup: Setup, m: State, n: State, b: State, z: Slot)
    requires Agrees(setup, m) && OthersKept(setup, m, n, z) && BothPresent(m, z.userId)
    requires b.disk == n.disk && (forall x: Slot :: x != z ==> SameEntry(n, b, x))
    requires z in b.entries && b.entries[z].resourceType == RES_PACKAGE
    ensures Agrees(setup, b)
  {
    AllKept(setup, m, n, z);
    hide PicturesFor;
    forall x: Slot ensures SlotAgrees(setup, b, x) {
      if x != z {
        Layout(x.userId, x.wallpaperType);
        assert SlotAgrees(setup, m, x) && SameEntry(m, n, x) && SameEntry(n, b, x);
        assert SamePicturesAt(m.disk, b.disk, x);
        KeptAgrees(setup, m, b, x);
      }
    }
  }

  lemma CustomAgrees(setup: Setup, a: State, b: State, u: int, caller: Caller, content: Bytes, wallpaperType: int,
                     length: int, code: ErrorCode)
    requires Agrees(setup, a) && CustomOutcome(setup, a, b, u, caller, content, wallpaperType, length, code)
    ensures Agrees(setup, b)
  {
    hide Refused, SetOutcome, WithPackage, NewText, OthersKept, Agrees, FillBoth, Rebuild;
    var t := TypeOf(wallpaperType);
    var z := Slot(u, t);
    if CustomPrecheck(caller, wallpaperType) == NO_ERROR {
      if !caller.sceneBoard {
        FillOneAgrees(setup, a, u, t);
      } else if Refused(setup, a, b, u) {
        RefusedAgrees(setup, a, b, u);
      } else {
        var m, n :| StateSaved(setup, a, m, u, t, RES_PACKAGE) && IsTree(m.disk) &&
                    SetOutcome(setup, m, n, u, caller.userAllowed, content, wallpaperType, length, RES_PACKAGE, code) &&
                    b == WithPackage(setup, a, n, u, t);
        FillBothFacts(setup, a, u);
        FillAgrees(setup, a, m, u);
        assert BothPresent(m, u) by {
          var f := FillBoth(setup, a, u);
          assert m.entries == f.entries && f.Has(u, System) && f.Has(u, Lockscreen);
        }
        SetKeepsOthers(setup, m, n, u, caller.userAllowed, content, wallpaperType, length, RES_PACKAGE, code);
        PackageFacts(setup, a, n, u, t);
        PackageAgrees(setup, m, n, b, z);
      }
    }
  }

  lemma FillOneAgrees(setup: Setup, a: State, u: int, t: WallpaperType)
    requires Agrees(setup, a)
    ensures Agrees(setup, Fill(setup, a, u, t))
  {
    hide PicturesFor;
    var b := Fill(setup, a, u, t);
    FillFacts(setup, a, u, t);
    forall x: Slot ensures SlotAgrees(setup, b, x) {
      assert SlotAgrees(setup, a, x);
      if x == Slot(u, t) && x !in a.entries {
        RebuiltAgrees(setup, b, x);
      } else {
        KeptAgrees(setup, a, b, x);
      }
    }
  }

  /** The request ran to its end, or was refused before it changed the user's pictures. A
      SetAllWallpapers counts only if it lists a portrait picture for the normal state and managed to
      clear the directory first: the service ignores the result of that clearing. */
  ghost predicate RanToEndOrRefused(setup: Setup, a: State, q: Request, code: ErrorCode, b: State) {
    match q
    case Set(u, _, _, _, _, _) => code == NO_ERROR || Refused(setup, a, b, u)
    case Reset(u, _, _) => code == NO_ERROR || Refused(setup, a, b, u)
    case SetAll(u, _, items, _, t) =>
      if code == NO_ERROR then HoldsOnly(b.disk, u, TypeOf(t), items) && Listed(items, Normal, Port)
      else Refused(setup, a, b, u)
    case InitUser(u) => u < 0 || InitDone(setup, b, u) || Refused(setup, a, b, u)
    case Lookup(u, t, _) => a.Has(u, t) || u < 0 || InitDone(setup, b, u) || Refused(setup, a, b, u)
    case _ => true
  }

  lemma StepKeepsIndex(setup: Setup, a: State, q: Request, code: ErrorCode, b: State)
    requires Agrees(setup, a) && Step(setup, a, q, code, b) && RanToEndOrRefused(setup, a, q, code, b)
    ensures Agrees(setup, b)
  {
    hide CustomOutcome, Refused, Spoiled, SetDone, ResetDone, SetAllDone, InitOutcome, InitDone, RemoveOutcome,
      IsTree, Agrees,
      ScaffoldOnly, Rebuild, HoldsOnly, Listed;
    match q
    case Set(u, allowed, content, t, length, res) =>
      if Refused(setup, a, b, u) {
        RefusedAgrees(setup, a, b, u);
      } else {
        SetDoneAgrees(setup, a, b, Slot(u, TypeOf(t)), res, Overwrite(Content(a.disk, TMP), Buffered(content, length)));
      }
    case Custom(u, caller, content, t, length) => CustomAgrees(setup, a, b, u, caller, content, t, length, code);
    case Reset(u, caller, t) =>
      if Refused(setup, a, b, u) {
        RefusedAgrees(setup, a, b, u);
      } else {
        ResetDoneAgrees(setup, a, b, Slot(u, TypeOf(t)));
      }
    case SetAll(u, caller, items, fdCount, t) =>
      if Refused(setup, a, b, u) {
        RefusedAgrees(setup, a, b, u);
      } else {
        SetAllDoneAgrees(setup, a, b, Slot(u, TypeOf(t)), items);
      }
    case Lookup(u, t, _) => if !a.Has(u, t) { InitStepAgrees(setup, a, b, u); }
    case InitUser(u) => InitStepAgrees(setup, a, b, u);
    case RemoveUser(u) => RemoveAgrees(setup, a, b, u);
    case SwitchUser(u, active) =>
      if b != a {
        SwitchIsScaffold(setup, a, b, u, active);
        ScaffoldAgrees(setup, a, b);
      }
    case Restart(active) => ScaffoldAgrees(setup, a, b);
    case Boot(users) =>
      forall x: Slot | x in b.entries ensures SameEntry(a, b, x) || IsRebuilt(setup, b, x) {
        assert x.userId in users || x.userId !in users;
      }
      ScaffoldAgrees(setup, a, b);
  }

  lemma InitStepAgrees(setup: Setup, a: State, b: State, u: int)
    requires Agrees(setup, a) && InitOutcome(setup, a, b, u)
    requires u < 0 || InitDone(setup, b, u) || Refused(setup, a, b, u)
    ensures Agrees(setup, b)
  {
    hide Refused, InitDone, Agrees;
    if u >= 0 {
      if Refused(setup, a, b, u) {
        RefusedAgrees(setup, a, b, u);
      } else {
        InitAgrees(setup, a, b, u);
      }
    }
  }

  ghost predicate GoodRun(setup: Setup, start: State, events: seq<Event>)
    decreases |events|
  {
    events == [] ||
    (Step(setup, start, events[0].request, events[0].code, events[0].after) &&
     RanToEndOrRefused(setup, start, events[0].request, events[0].code, events[0].after) &&
     GoodRun(setup, events[0].after, events[1..]))
  }

  /** Along such a run every still-picture entry holds the six paths a restart would find. */
  lemma {:induction false} RunKeepsIndex(setup: Setup, start: State, events: seq<Event>)
    requires Agrees(setup, start) && GoodRun(setup, start, events)
    ensures Agrees(setup, Final(start, events))
    decreases |events|
  {
    hide Step, Agrees, RanToEndOrRefused;
    if events != [] {
      StepKeepsIndex(setup, start, events[0].request, events[0].code, events[0].after);
      RunKeepsIndex(setup, events[0].after, events[1..]);
    }
  }

  // ----- what a reliable system does to the index -----

  /** Which requests keep the index right, told from the state and the request: all but a list without a
      normal portrait, and a list that repeats a screen, unless the pictures before the first repeat are
      the ones that were there, or no portrait is among them and none was shown. */
  ghost predicate KeepsIndex(a: State, q: Request)
    requires ForSlot(q)
  {
    match q
    case SetAll(u, caller, items, fdCount, wallpaperType) =>
      var t := TypeOf(wallpaperType);
      if SetAllPrecheck(caller, items, fdCount) != NO_ERROR || ListAnswer(items, wallpaperType) != NO_ERROR then true
      else if DistinctScreens(items) then Listed(items, Normal, Port)
      else SameAsBefore(a, u, t, BeforeRepeat(items))
    case _ => true
  }

  /** The entry is no still picture, or the list has exactly the pictures that are there, or no portrait
      where none is shown. */
  ghost predicate SameAsBefore(a: State, u: int, t: WallpaperType, items: seq<Item>) {
    if a.Has(u, t) && !IsStill(a.At(u, t)) then true
    else if a.Has(u, t) && Exists(a.disk, PicturePath(u, t, Normal, Port)) then
      forall f, r :: Listed(items, f, r) <==> Exists(a.disk, PicturePath(u, t, f, r))
    else !Listed(items, Normal, Port)
  }

  /** With every other entry kept or rebuilt, only the slot of the request can be wrong. */
  lemma OnlyItsSlot(setup: Setup, a: State, b: State, z: Slot)
    requires Agrees(setup, a) && OthersKept(setup, a, b, z)
    ensures Agrees(setup, b) <==> SlotAgrees(setup, b, z)
  {
    hide PicturesFor, FilesKept;
    if SlotAgrees(setup, b, z) {
      forall x: Slot ensures SlotAgrees(setup, b, x) {
        if x != z {
          if IsRebuilt(setup, b, x) {
            RebuiltAgrees(setup, b, x);
          } else {
            assert SlotAgrees(setup, a, x) && SameEntry(a, b, x);
            SameFilesRebuild(setup, a.disk, b.disk, z, x);
          }
        }
      }
    }
  }

  lemma LeftListed(d: Disk, u: int, t: WallpaperType, items: seq<Item>)
    requires PicturesLeft(d, u, t, items)
    ensures forall f, r :: Exists(d, PicturePath(u, t, f, r)) <==> Listed(items, f, r)
  {
    Layout(u, t);
    forall f, r ensures Exists(d, PicturePath(u, t, f, r)) <==> Listed(items, f, r) {
      var p := PicturePath(u, t, f, r);
      forall i | 0 <= i < |items| ensures IsFor(items[i], f, r) <==> items[i].Target(u, t) == p {}
      assert Listed(items, f, r) <==> IsTargetOf(items, u, t, p);
    }
  }

  lemma RepeatedAgreesExactly(setup: Setup, a: State, b: State, u: int, t: WallpaperType, items: seq<Item>, i: nat)
    requires Spoiled(setup, a, b, u, t) && SlotAgrees(setup, a, Slot(u, t)) && b.Has(u, t)
    requires !a.Has(u, t) ==> b.At(u, t).pictures == GetWallpaperDefaultPath(setup, t)
    requires RepeatsAt(items, i) && PicturesLeft(b.disk, u, t, items[..i])
    ensures SlotAgrees(setup, b, Slot(u, t)) <==> SameAsBefore(a, u, t, BeforeRepeat(items))
  {
    FirstRepeat(items, i);
    LeftListed(b.disk, u, t, items[..i]);
    hide RepeatsAt, PicturesLeft, Listed, BeforeRepeat, StateKept, SameAt;
    if a.Has(u, t) {
      if IsStill(a.At(u, t)) { FailedAgreesExactly(setup, a, b, u, t); }
    } else {
      DefaultPictures(setup, t);
      assert PicturesOnDisk(b.disk, u, t).wallpaperFile == GetExistFilePath(b.disk, PicturePath(u, t, Normal, Port));
    }
  }

  lemma SetAllIndexExactly(setup: Setup, a: State, q: Request, code: ErrorCode, b: State)
    requires Agrees(setup, a) && SureStep(setup, a, q, code, b) && q.SetAll?
    requires RequestSure(true, a.disk, q.userId, TypeOf(q.wallpaperType))
    ensures Agrees(setup, b) <==> KeepsIndex(a, q)
  {
    var u, t := q.userId, TypeOf(q.wallpaperType);
    var z := Slot(u, t);
    RequestKeepsOthers(setup, a, q, code, b) by { SureIsStep(setup, a, q, code, b); }
    OnlyItsSlot(setup, a, b, z);
    SureList(setup, a, q, code, b);
    assert SlotAgrees(setup, a, z);
    hide SureStep, Step, SetAllSure, SameAsBefore, Agrees, SlotAgrees, OthersKept, Refused, Spoiled, SetAllDone,
      HoldsOnly, Listed, ListAnswer, NoTempLeft, DistinctScreens, OnlyTemps, TempsWritten, RequestSure, IsTree,
      RepeatsAt, PicturesLeft, BeforeRepeat;
    if SetAllPrecheck(q.caller, q.items, q.fdCount) == NO_ERROR {
      if ListAnswer(q.items, q.wallpaperType) != NO_ERROR {
        SureRefusal(setup, a, b, u, t, q.items, q.wallpaperType, code);
        RefusedAgrees(setup, a, b, u);
      } else if DistinctScreens(q.items) {
        SureSuccess(setup, a, b, u, t, q.items, q.wallpaperType);
        ClearedSetAllAgreesExactly(setup, a, b, z, q.items);
      } else {
        var i := SureRepeat(setup, a, b, u, t, q.items, q.wallpaperType, code);
        RepeatedAgreesExactly(setup, a, b, u, t, q.items, i);
      }
    }
  }

  /** On a reliable system, a request for a slot whose directories are there keeps the index right if and
      only if the state and the request say so beforehand. */
  lemma SureKeepsIndexExactly(setup: Setup, a: State, q: Request, code: ErrorCode, b: State)
    requires Agrees(setup, a) && SureStep(setup, a, q, code, b) && ForSlot(q)
    requires RequestSure(true, a.disk, q.userId, TypeOf(q.wallpaperType))
    ensures Agrees(setup, b) <==> KeepsIndex(a, q)
  {
    hide Agrees, Refused, Spoiled, Wiped, SetDone, ResetDone, SetAllDone, CustomOutcome, RequestSure, SlotMissing,
      IsTree;
    match q
    case Set(u, allowed, content, t, length, res) =>
      if code == NO_ERROR {
        SetDoneAgrees(setup, a, b, Slot(u, TypeOf(t)), res, Overwrite(Content(a.disk, TMP), Buffered(content, length)));
      } else {
        assert b == a;
      }
    case Custom(u, caller, content, t, length) => CustomAgrees(setup, a, b, u, caller, content, t, length, code);
    case Reset(u, caller, t) =>
      if code == NO_ERROR {
        ResetDoneAgrees(setup, a, b, Slot(u, TypeOf(t)));
      } else {
        assert b == a;
      }
    case SetAll(u, caller, items, fdCount, t) => SetAllIndexExactly(setup, a, q, code, b);
  }

  const UNFOLDED := Item(Unfold1, Port, "pixel", 5)

  /** A user with empty directories and no entry. */
  function EmptyUser(): State {
    var d := Disk({Base, UserDir(100), GetWallpaperDir(100, System), GetWallpaperDir(100, Lockscreen)}, map[]);
    State(d, imap[], -1, 0, 100)
  }

  /** The same user after a list of the one unfolded picture. */
  function UnfoldedSet(setup: Setup): State {
    var picture := PicturePath(100, System, Unfold1, Port);
    var ps := Only(GetWallpaperDefaultPath(setup, System).wallpaperFile).With(Unfold1, Port, picture);
    var data := WallpaperData(100, ps, LivePath(100, System), PackagePath(100, System), 0, true, RES_PICTURE);
    State(EmptyUser().disk.(files := map[picture := "pixel"]), imap[Slot(100, System) := data], 0, 1, 100)
  }

  /** It happens: a list of one picture for the unfolded device succeeds, and leaves an entry that a restart
      would not rebuild. */
  lemma IndexLost(setup: Setup) returns (a: State, q: Request, after: State)
    ensures WellFormed(a) && Agrees(setup, a) && q.SetAll? && DistinctScreens(q.items)
    ensures RequestSure(true, a.disk, q.userId, TypeOf(q.wallpaperType))
    ensures SureStep(setup, a, q, NO_ERROR, after)
    ensures forall code, b :: SureStep(setup, a, q, code, b) ==> code == NO_ERROR && !Agrees(setup, b)
  {
    a, after := EmptyUser(), UnfoldedSet(setup);
    q := Request.SetAll(100, Caller(true, false, true, true, true), [UNFOLDED], 1, 0);
    TwoSlotsReady(a.disk);
    assert IsTree(a.disk);
    assert q.items[0] == UNFOLDED;
    assert ListAnswer(q.items, 0) == NO_ERROR by { assert q.items[..0] == []; }
    UnfoldedOnly();
    UnfoldedIsSet(setup);
    hide SureStep, Agrees, RequestSure, ListAnswer, Listed, IsTree, EmptyUser, UnfoldedSet, SetAllDone, HoldsOnly;
    assert !Listed(q.items, Normal, Port);
    ListIsSure(setup, a, q, after);
    forall code, b | SureStep(setup, a, q, code, b) ensures code == NO_ERROR && !Agrees(setup, b) {
      SureList(setup, a, q, code, b);
      SureKeepsIndexExactly(setup, a, q, code, b);
    }
  }

  lemma UnfoldedOnly()
    ensures forall f, r :: Listed([UNFOLDED], f, r) <==> (f, r) == (Unfold1, Port)
    ensures forall u, t, p :: IsTargetOf([UNFOLDED], u, t, p) <==> p == PicturePath(u, t, Unfold1, Port)
    ensures forall p :: IsTempOf([UNFOLDED], p) <==> p == TempPath(Unfold1, Port)
  {
    var items := [UNFOLDED];
    assert items[0] == UNFOLDED;
    assert IsFor(items[0], Unfold1, Port);
    assert forall u, t :: items[0].Target(u, t) == PicturePath(u, t, Unfold1, Port);
    assert items[0].TempFile() == TempPath(Unfold1, Port);
  }

  lemma UnfoldedDisk(setup: Setup)
    ensures var a, b := EmptyUser().disk, UnfoldedSet(setup).disk;
            IsTree(b) && HoldsOnly(b, 100, System, [UNFOLDED]) && !Exists(b, UNFOLDED.TempFile()) &&
            !Exists(a, UNFOLDED.TempFile()) &&
            forall p :: p != PicturePath(100, System, Unfold1, Port) ==> SameAt(a, b, p)
  {
    UnfoldedOnly();
    Layout(100, System);
    UserDirsInside(100);
    var b := UnfoldedSet(setup).disk;
    forall p | Below(p, GetWallpaperDir(100, System)) ensures p !in b.dirs {
      TypeDirInUserDir(p, 100, System);
      assert p != Base;
    }
    hide Listed, IsTargetOf, IsTempOf, GetWallpaperDefaultPath, Below;
  }

  lemma UnfoldedIsSet(setup: Setup)
    ensures var b := UnfoldedSet(setup);
            SetAllDone(setup, EmptyUser(), b, 100, System, [UNFOLDED]) && HoldsOnly(b.disk, 100, System, [UNFOLDED]) &&
            b.Has(100, System) && IsTree(b.disk) &&
            b.At(100, System).pictures.wallpaperFile == GetWallpaperDefaultPath(setup, System).wallpaperFile
  {
    var b, items := UnfoldedSet(setup), [UNFOLDED];
    UnfoldedOnly();
    UnfoldedDisk(setup);
    DefaultPictures(setup, System);
    Layout(100, System);
    assert "pixel"[..5] == "pixel";
    OverwriteExact([], "pixel");
    hide GetWallpaperDefaultPath, Listed, IsTargetOf, IsTempOf, Overwrite, Below, SameAt, IsTree, HoldsOnly;
    var portrait := GetWallpaperDefaultPath(setup, System).wallpaperFile;
    assert PicturesSet(Only(portrait), b.At(100, System).pictures, 100, System, items);
    assert items[0].Target(100, System) == PicturePath(100, System, Unfold1, Port) && items[0].Buffer() == "pixel";
  }

  /** A list that did what the outcome of a successful one says is a step of a reliable system. */
  lemma ListIsSure(setup: Setup, a: State, q: Request, b: State)
    requires q.SetAll? && AnswerTo(q) == NO_ERROR && IsTree(b.disk) && |q.items| > 0
    requires RequestSure(true, a.disk, q.userId, TypeOf(q.wallpaperType))
    requires var (u, t) := (q.userId, TypeOf(q.wallpaperType));
             IsType(q.wallpaperType) && SetAllDone(setup, a, b, u, t, q.items) && HoldsOnly(b.disk, u, t, q.items) &&
             b.Has(u, t) && !a.Has(u, t) &&
             b.At(u, t).pictures.wallpaperFile == GetWallpaperDefaultPath(setup, t).wallpaperFile
    ensures SureStep(setup, a, q, NO_ERROR, b)
  {
    NotMissing(a.disk, q.userId, TypeOf(q.wallpaperType));
    hide SetAllDone, HoldsOnly, GetWallpaperDefaultPath, RequestSure, ListSure, SlotMissing, IsTree, ListAnswer, Listed,
      DistinctScreens;
  }

  /** A restart mends the index, however wrong it was before. */
  lemma RestartAgrees(setup: Setup, a: State, b: State, active: int, code: ErrorCode)
    requires Step(setup, a, Restart(active), code, b)
    ensures Agrees(setup, b)
  {
    hide IsTree, PicturesFor;
    forall x: Slot ensures SlotAgrees(setup, b, x) {
      if x in b.entries { RebuiltAgrees(setup, b, x); }
    }
  }

  /** So a restart that reports the same accounts brings every still picture back. */
  lemma RestartRestores(setup: Setup, start: State, events: seq<Event>, m: State, b: State, active: int,
                        users: seq<int>, code: ErrorCode, x: Slot)
    requires Agrees(setup, start) && GoodRun(setup, start, events)
    requires Step(setup, Final(start, events), Restart(active), code, m) && Step(setup, m, Boot(users), code, b)
    requires x in Final(start, events).entries && IsStill(Final(start, events).entries[x]) && x.userId in users
    ensures x in b.entries && b.entries[x].pictures == Final(start, events).entries[x].pictures
  {
    hide GoodRun, IsTree, PicturesFor;
    var s := Final(start, events);
    RunKeepsIndex(setup, start, events);
    assert SlotAgrees(setup, s, x);
    ScaffoldTransitive(s.disk, m.disk, b.disk);
    ScaffoldRebuild(setup, s.disk, b.disk);
    assert IsRebuilt(setup, b, x);
    assert Rebuild(setup, s.disk, x.userId, x.wallpaperType) == Rebuild(setup, b.disk, x.userId, x.wallpaperType);
  }

  lemma BootRebuilds(setup: Setup, a: State, users: seq<int>, code: ErrorCode, b: State, x: Slot)
    requires Step(setup, a, Boot(users), code, b) && x.userId in users
    ensures IsRebuilt(setup, b, x)
  {
    hide IsTree, PicturesFor;
  }

  /** A rebuilt entry is of type picture; with the same pictures it then selects the same file. */
  lemma PictureTypeBack(setup: Setup, s: State, b: State, x: Slot)
    requires x in s.entries && IsRebuilt(setup, b, x)
    requires s.entries[x].resourceType == RES_PICTURE ==> b.entries[x].pictures == s.entries[x].pictures
    ensures b.entries[x].resourceType == s.entries[x].resourceType &&
            ChosenFile(b.entries[x]) == ChosenFile(s.entries[x]) <==>
            s.entries[x].resourceType == RES_PICTURE
  {
    hide PicturesFor;
  }

  /** But the types that the state file names are dropped: an entry comes back with its type and with the
      file it selected if and only if it was of type picture. */
  lemma RestartKeepsTypeExactly(setup: Setup, start: State, events: seq<Event>, m: State, b: State, active: int,
                                users: seq<int>, code: ErrorCode, x: Slot)
    requires Agrees(setup, start) && GoodRun(setup, start, events)
    requires Step(setup, Final(start, events), Restart(active), code, m) && Step(setup, m, Boot(users), code, b)
    requires x in Final(start, events).entries && x.userId in users
    ensures x in b.entries
    ensures b.entries[x].resourceType == Final(start, events).entries[x].resourceType &&
            ChosenFile(b.entries[x]) == ChosenFile(Final(start, events).entries[x]) <==>
            Final(start, events).entries[x].resourceType == RES_PICTURE
  {
    hide Step, GoodRun, Agrees, ChosenFile, PicturesFor;
    var s := Final(start, events);
    BootRebuilds(setup, m, users, code, b, x);
    if s.entries[x].resourceType == RES_PICTURE {
      RestartRestores(setup, start, events, m, b, active, users, code, x);
    }
    PictureTypeBack(setup, s, b, x);
  }
}
