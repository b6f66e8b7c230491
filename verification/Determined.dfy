/** On a reliable system that is in order nothing is left open: the answer to a request and the state after it
    follow from the state before it and the request. */
module Determined {
  import opened Paths
  import opened FileDeal
  import opened StateFile
  import opened ServiceState
  import opened ListSteps
  import opened ServiceRuns
  import opened Readiness
  import opened DiskRuns
  import opened SizeRuns
  import StateFileRuns
  import TempRuns

  // ----- equal disks and states -----

  lemma SameDisks(b: Disk, c: Disk)
    requires forall p :: SameAt(b, c, p)
    ensures b == c
  {
    assert b.dirs == c.dirs by {
      forall p ensures p in b.dirs <==> p in c.dirs { assert SameAt(b, c, p); }
    }
    assert b.files == c.files by {
      forall p ensures (p in b.files <==> p in c.files) && (p in b.files ==> b.files[p] == c.files[p]) {
        assert SameAt(b, c, p);
      }
    }
  }

  ghost predicate SameRest(b: State, c: State) {
    b.wallpaperId == c.wallpaperId && b.issued == c.issued && b.currentUserId == c.currentUserId
  }

  lemma SameStates(b: State, c: State)
    requires b.disk == c.disk && SameRest(b, c) && forall x: Slot :: SameEntry(b, c, x)
    ensures b == c
  {
    forall x: Slot ensures (x in b.entries <==> x in c.entries) && (x in b.entries ==> b.entries[x] == c.entries[x]) {
      assert SameEntry(b, c, x);
    }
    assert b.entries == c.entries;
  }

  /** Two states that agree with a third outside one user, whose entries are given. */
  lemma SameOfUser(a: State, b: State, c: State, u: int)
    requires OtherUsersKept(a, b, u) && OtherUsersKept(a, c, u)
    requires BothPresent(b, u) && BothPresent(c, u)
    requires forall k :: b.Has(u, k) && c.Has(u, k) ==> b.At(u, k) == c.At(u, k)
    requires b.disk == c.disk && SameRest(b, c)
    ensures b == c
  {
    TwoSlots(u);
    forall x: Slot ensures SameEntry(b, c, x) {
      if x.userId == u {
        assert b.Has(u, x.wallpaperType) && c.Has(u, x.wallpaperType);
      } else {
        assert SameEntry(a, b, x) && SameEntry(a, c, x);
      }
    }
    SameStates(b, c);
  }

  lemma AlikeAt(a: Disk, b: Disk, c: Disk, p: Path)
    requires SameAt(a, b, p) && SameAt(a, c, p)
    ensures SameAt(b, c, p)
  {
  }

  // ----- set and reset -----

  lemma SameInstalled(a: Disk, b: Disk, c: Disk, u: int, t: WallpaperType, target: Path, bytes: Bytes, text: Bytes)
    requires Installed(a, b, u, t, target, bytes, text) && Installed(a, c, u, t, target, bytes, text)
    requires IsTree(b) && IsTree(c)
    ensures b == c
  {
    forall p ensures SameAt(b, c, p) {
      if p != target && p != TMP && p != StatePath(u) && !Below(p, GetWallpaperDir(u, t)) { AlikeAt(a, b, c, p); }
    }
    SameDisks(b, c);
  }

  lemma SetDetermined(setup: Setup, a: State, b: State, c: State, u: int, t: WallpaperType, res: ResourceType,
                      bytes: Bytes)
    requires SetDone(setup, a, b, u, t, res, bytes) && SetDone(setup, a, c, u, t, res, bytes)
    requires IsTree(b.disk) && IsTree(c.disk)
    ensures b == c
  {
    SameInstalled(a.disk, b.disk, c.disk, u, t, TargetPath(u, t, res), bytes, NewText(setup, a, u, t, res));
    hide Installed, IsTree, Rebuild, NewText, OtherUsersKept;
    BothTypes(b, c, u, t);
    SameOfUser(a, b, c, u);
  }

  lemma BothTypes(b: State, c: State, u: int, t: WallpaperType)
    requires BothPresent(b, u) && BothPresent(c, u)
    requires b.At(u, t) == c.At(u, t) && b.At(u, OtherType(t)) == c.At(u, OtherType(t))
    ensures forall k :: b.Has(u, k) && c.Has(u, k) ==> b.At(u, k) == c.At(u, k)
  {
    forall k | b.Has(u, k) && c.Has(u, k) ensures b.At(u, k) == c.At(u, k) {
      assert k == t || k == OtherType(t);
    }
  }

  lemma ResetDetermined(setup: Setup, a: State, b: State, c: State, u: int, t: WallpaperType)
    requires ResetDone(setup, a, b, u, t) && ResetDone(setup, a, c, u, t) && IsTree(b.disk) && IsTree(c.disk)
    ensures b == c
  {
    hide Rebuild, NewText, OtherUsersKept, Overwrite;
    forall p ensures SameAt(b.disk, c.disk, p) {
      if p != StatePath(u) && !Below(p, GetWallpaperDir(u, t)) { AlikeAt(a.disk, b.disk, c.disk, p); }
    }
    SameDisks(b.disk, c.disk);
    BothTypes(b, c, u, t);
    SameOfUser(a, b, c, u);
  }

  // ----- lists -----

  lemma SamePictureSets(before: Pictures, other: Pictures, b: Pictures, c: Pictures, u: int, t: WallpaperType,
                        items: seq<Item>)
    requires PicturesSet(before, b, u, t, items) && PicturesSet(other, c, u, t, items)
    requires forall f, r :: Listed(items, f, r) || before.At(f, r) == other.At(f, r)
    ensures b == c
  {
    hide Listed;
    forall f, r ensures b.At(f, r) == c.At(f, r) {
      assert b.At(f, r) == if Listed(items, f, r) then PicturePath(u, t, f, r) else before.At(f, r);
      assert c.At(f, r) == if Listed(items, f, r) then PicturePath(u, t, f, r) else other.At(f, r);
      assert Listed(items, f, r) || before.At(f, r) == other.At(f, r);
    }
    assert b.At(Normal, Port) == c.At(Normal, Port) && b.At(Normal, Land) == c.At(Normal, Land);
    assert b.At(Unfold1, Port) == c.At(Unfold1, Port) && b.At(Unfold1, Land) == c.At(Unfold1, Land);
    assert b.At(Unfold2, Port) == c.At(Unfold2, Port) && b.At(Unfold2, Land) == c.At(Unfold2, Land);
  }

  lemma ListDisk(setup: Setup, a: State, b: State, c: State, u: int, t: WallpaperType, items: seq<Item>)
    requires SetAllDone(setup, a, b, u, t, items) && SetAllDone(setup, a, c, u, t, items)
    requires HoldsOnly(b.disk, u, t, items) && HoldsOnly(c.disk, u, t, items) && IsTree(b.disk) && IsTree(c.disk)
    ensures b.disk == c.disk
  {
    hide PicturesSet, DistinctScreens, Overwrite;
    forall p ensures SameAt(b.disk, c.disk, p) {
      if IsTempOf(items, p) {
        assert !Exists(b.disk, p) && !Exists(c.disk, p);
      } else if IsTargetOf(items, u, t, p) {
        var i :| 0 <= i < |items| && items[i].Target(u, t) == p;
      } else if !Below(p, GetWallpaperDir(u, t)) {
        AlikeAt(a.disk, b.disk, c.disk, p);
      }
    }
    SameDisks(b.disk, c.disk);
  }

  lemma ListDetermined(setup: Setup, a: State, b: State, c: State, u: int, t: WallpaperType, items: seq<Item>,
                       wallpaperType: int)
    requires SetAllDone(setup, a, b, u, t, items) && SetAllDone(setup, a, c, u, t, items)
    requires SetAllSure(setup, a, b, u, t, items, wallpaperType, NO_ERROR)
    requires SetAllSure(setup, a, c, u, t, items, wallpaperType, NO_ERROR)
    requires IsTree(b.disk) && IsTree(c.disk)
    ensures b == c
  {
    ListDisk(setup, a, b, c, u, t, items);
    var p := ListPortrait(setup, a, b, u, t, items);
    var q := ListPortrait(setup, a, c, u, t, items);
    ListEntry(setup, a, b, u, t, items);
    ListEntry(setup, a, c, u, t, items);
    hide SetAllDone, GetWallpaperDefaultPath, IsTree, HoldsOnly;
    assert b.At(u, t).pictures.wallpaperFile == b.At(u, t).pictures.At(Normal, Port);
    assert c.At(u, t).pictures.wallpaperFile == c.At(u, t).pictures.At(Normal, Port);
    assert Listed(items, Normal, Port) || p == q;
    SamePictureSets(Only(p), Only(q), b.At(u, t).pictures, c.At(u, t).pictures, u, t, items);
    forall x: Slot ensures SameEntry(b, c, x) {
      assert x != Slot(u, t) ==> SameEntry(a, b, x) && SameEntry(a, c, x);
    }
    SameStates(b, c);
  }

  lemma ListPortrait(setup: Setup, a: State, b: State, u: int, t: WallpaperType, items: seq<Item>) returns (p: Path)
    requires SetAllDone(setup, a, b, u, t, items)
    ensures a.Has(u, t) ==> p == a.At(u, t).pictures.wallpaperFile
    ensures b.Has(u, t) && PicturesSet(Only(p), b.At(u, t).pictures, u, t, items)
  {
    p :| IsPortrait(p, Slot(u, t)) && (a.Has(u, t) ==> p == a.At(u, t).pictures.wallpaperFile) &&
         PicturesSet(Only(p), b.At(u, t).pictures, u, t, items);
  }

  lemma ListEntry(setup: Setup, a: State, b: State, u: int, t: WallpaperType, items: seq<Item>)
    requires SetAllDone(setup, a, b, u, t, items)
    ensures forall x: Slot :: x != Slot(u, t) ==> SameEntry(a, b, x)
    ensures b.Has(u, t) && b.issued == a.issued + 1 && b.wallpaperId == NextId(a.wallpaperId)
    ensures b.currentUserId == a.currentUserId
    ensures b.At(u, t) == WallpaperData(u, b.At(u, t).pictures, LivePath(u, t), PackagePath(u, t), b.wallpaperId, true,
                                        RES_PICTURE)
  {
    hide PicturesSet, DistinctScreens, SameAt, Below;
  }

  lemma RepeatDisk(a: Disk, b: Disk, c: Disk, u: int, t: WallpaperType, items: seq<Item>, i: nat)
    requires i <= |items| && NoTempLeft(b, items) && NoTempLeft(c, items) && IsTree(b) && IsTree(c)
    requires PicturesLeft(b, u, t, items[..i]) && PicturesHold(a, b, u, t, items, i)
    requires PicturesLeft(c, u, t, items[..i]) && PicturesHold(a, c, u, t, items, i)
    requires forall p :: !Below(p, GetWallpaperDir(u, t)) && !IsTempOf(items, p) ==> SameAt(a, b, p)
    requires forall p :: !Below(p, GetWallpaperDir(u, t)) && !IsTempOf(items, p) ==> SameAt(a, c, p)
    ensures b == c
  {
    hide Writes;
    forall p ensures SameAt(b, c, p) {
      if IsTempOf(items, p) {
        assert !Exists(b, p) && !Exists(c, p);
      } else if !Below(p, GetWallpaperDir(u, t)) {
        AlikeAt(a, b, c, p);
      } else if IsTargetOf(items[..i], u, t, p) {
        var j :| 0 <= j < |items[..i]| && items[..i][j].Target(u, t) == p;
        assert items[j].Target(u, t) == p;
      }
    }
    SameDisks(b, c);
  }

  lemma RepeatKeeps(setup: Setup, a: State, b: State, u: int, t: WallpaperType, items: seq<Item>, wallpaperType: int,
                    code: ErrorCode)
    requires SetAllSure(setup, a, b, u, t, items, wallpaperType, code) && code != NO_ERROR &&
             ListAnswer(items, wallpaperType) == NO_ERROR
    ensures forall p :: !Below(p, GetWallpaperDir(u, t)) && !IsTempOf(items, p) ==> SameAt(a.disk, b.disk, p)
    ensures NoTempLeft(b.disk, items) && b == FillEmptied(setup, a, u, t).(disk := b.disk)
  {
    hide FillEmptied, ListAnswer, PicturesLeft, PicturesHold, RepeatsAt, Grew, StateKept, Rebuild, NoTempLeft, IsTempOf,
      Below, SameAt, IsTemp;
    forall p | !Below(p, GetWallpaperDir(u, t)) && !IsTempOf(items, p) ensures SameAt(a.disk, b.disk, p) {
      assert IsTemp(p) || p == StatePath(u) || SameAt(a.disk, b.disk, p);
    }
  }

  lemma RepeatDetermined(setup: Setup, a: State, b: State, c: State, u: int, t: WallpaperType, items: seq<Item>,
                         wallpaperType: int, code: ErrorCode)
    requires SetAllSure(setup, a, b, u, t, items, wallpaperType, code)
    requires SetAllSure(setup, a, c, u, t, items, wallpaperType, code)
    requires code != NO_ERROR && ListAnswer(items, wallpaperType) == NO_ERROR && IsTree(b.disk) && IsTree(c.disk)
    ensures b == c
  {
    var i := SureRepeat(setup, a, b, u, t, items, wallpaperType, code);
    var j := SureRepeat(setup, a, c, u, t, items, wallpaperType, code);
    FirstRepeat(items, i);
    FirstRepeat(items, j);
    assert |items[..i]| == i && |items[..j]| == j;
    RepeatKeeps(setup, a, b, u, t, items, wallpaperType, code);
    RepeatKeeps(setup, a, c, u, t, items, wallpaperType, code);
    hide SetAllSure, ListAnswer, PicturesLeft, PicturesHold, RepeatsAt, BeforeRepeat, IsTree, NoTempLeft, FillEmptied;
    RepeatDisk(a.disk, b.disk, c.disk, u, t, items, i);
  }

  lemma EmptyOnce(items: seq<Item>, wallpaperType: int, i: nat, j: nat)
    requires EmptyAt(items, wallpaperType, i) && EmptyAt(items, wallpaperType, j)
    ensures i <= j
  {
    hide ListAnswer;
    AcceptedLists(items[..i], wallpaperType);
    assert forall k :: 0 <= k < i ==> items[..i][k] == items[k];
  }

  lemma InvalidOnce(items: seq<Item>, wallpaperType: int, i: nat, j: nat)
    requires i < |items| && j < |items|
    requires ListAnswer(items[..i], wallpaperType) == NO_ERROR
    requires CheckValid(wallpaperType, items[j].length, RES_PICTURE) != NO_ERROR
    ensures i <= j
  {
    hide ListAnswer;
    AcceptedLists(items[..i], wallpaperType);
    assert forall k :: 0 <= k < i ==> items[..i][k] == items[k];
  }

  lemma GoneAlike(a: Disk, b: Disk, c: Disk, items: seq<Item>)
    requires NoTempLeft(b, items) && OnlyTemps(a, b, items) && NoTempLeft(c, items) && OnlyTemps(a, c, items)
    ensures b == c
  {
    forall p ensures SameAt(b, c, p) {
      if IsTempOf(items, p) {
        assert !Exists(b, p) && !Exists(c, p);
      } else {
        AlikeAt(a, b, c, p);
      }
    }
    SameDisks(b, c);
  }

  lemma WrittenAlike(a: Disk, b: Disk, c: Disk, wallpaperType: int, items: seq<Item>)
    requires TempsWritten(a, b, wallpaperType, items) && TempsWritten(a, c, wallpaperType, items)
    requires IsTree(b) && IsTree(c)
    ensures b == c
  {
    hide Writes, TempsHold, DistinctScreens;
    forall p ensures SameAt(b, c, p) {
      if !IsTempOf(items, p) { AlikeAt(a, b, c, p); }
    }
    SameDisks(b, c);
  }

  lemma RefusedListDetermined(setup: Setup, a: State, b: State, c: State, u: int, items: seq<Item>, wallpaperType: int,
                              code: ErrorCode)
    requires ListRefused(setup, a, b, u, items, wallpaperType, code)
    requires ListRefused(setup, a, c, u, items, wallpaperType, code)
    requires code == ListAnswer(items, wallpaperType) != NO_ERROR && IsTree(b.disk) && IsTree(c.disk)
    ensures b == c
  {
    hide Refused, ListAnswer, NoTempLeft, OnlyTemps, TempsWritten, IsTempOf, IsTree, CheckValid;
    if code == E_DEAL_FAILED {
      var i: nat :| EmptyAt(items, wallpaperType, i) && NoTempLeft(b.disk, items[..i + 1]) &&
                    OnlyTemps(a.disk, b.disk, items[..i + 1]);
      var j: nat :| EmptyAt(items, wallpaperType, j) && NoTempLeft(c.disk, items[..j + 1]) &&
                    OnlyTemps(a.disk, c.disk, items[..j + 1]);
      EmptyOnce(items, wallpaperType, i, j);
      EmptyOnce(items, wallpaperType, j, i);
      GoneAlike(a.disk, b.disk, c.disk, items[..i + 1]);
    } else {
      var i :| 0 <= i < |items| && CheckValid(wallpaperType, items[i].length, RES_PICTURE) == code &&
               ListAnswer(items[..i], wallpaperType) == NO_ERROR &&
               TempsWritten(a.disk, b.disk, wallpaperType, items[..i]);
      var j :| 0 <= j < |items| && CheckValid(wallpaperType, items[j].length, RES_PICTURE) == code &&
               ListAnswer(items[..j], wallpaperType) == NO_ERROR &&
               TempsWritten(a.disk, c.disk, wallpaperType, items[..j]);
      InvalidOnce(items, wallpaperType, i, j);
      InvalidOnce(items, wallpaperType, j, i);
      WrittenAlike(a.disk, b.disk, c.disk, wallpaperType, items[..i]);
    }
  }

  lemma MissingListDetermined(setup: Setup, a: State, b: State, c: State, u: int, t: WallpaperType, items: seq<Item>,
                              wallpaperType: int, code: ErrorCode, other: ErrorCode)
    requires SetAllMissing(setup, a, b, u, t, items, wallpaperType, code)
    requires SetAllMissing(setup, a, c, u, t, items, wallpaperType, other)
    requires IsTree(b.disk) && IsTree(c.disk)
    ensures b == c && code == other
  {
    hide ListRefused, ListAnswer, NoTempLeft, OnlyTemps, Fill, IsTree;
    if ListAnswer(items, wallpaperType) != NO_ERROR {
      RefusedListDetermined(setup, a, b, c, u, items, wallpaperType, code);
    } else {
      GoneAlike(a.disk, b.disk, c.disk, items);
    }
  }

  // ----- users -----

  lemma SetUpDetermined(setup: Setup, a: State, b: State, c: State, u: int)
    requires forall p :: !Inside(p, UserDir(u)) ==> SameAt(b.disk, c.disk, p)
    requires InitDone(setup, b, u) && InitDone(setup, c, u) && SameRest(b, c)
    requires OtherUsersKept(a, b, u) && OtherUsersKept(a, c, u)
    ensures b == c
  {
    hide Rebuild, OtherUsersKept;
    forall p ensures SameAt(b.disk, c.disk, p) {
      assert Inside(p, UserDir(u)) || SameAt(b.disk, c.disk, p);
    }
    SameDisks(b.disk, c.disk);
    assert b.Has(u, System) && b.Has(u, Lockscreen) && c.Has(u, System) && c.Has(u, Lockscreen);
    SameOfUser(a, b, c, u);
  }

  lemma InitDetermined(setup: Setup, a: State, b: State, c: State, u: int)
    requires InitOutcome(setup, a, b, u) && InitOutcome(setup, a, c, u)
    requires SureSetUp(setup, a, b, u) && SureSetUp(setup, a, c, u)
    ensures b == c
  {
    hide InitDone, OtherUsersKept, Inside, OnlyUserDirsAdded;
    if CanSetUp(a.disk, u) {
      forall p | !Inside(p, UserDir(u)) ensures SameAt(b.disk, c.disk, p) { AlikeAt(a.disk, b.disk, c.disk, p); }
      SetUpDetermined(setup, a, b, c, u);
    }
  }

  lemma MissingSetDetermined(setup: Setup, a: State, b: State, c: State, u: int, t: WallpaperType, res: ResourceType,
                             bytes: Bytes, code: ErrorCode, other: ErrorCode)
    requires MissingOutcome(setup, a, b, u, t, res, bytes, code)
    requires MissingOutcome(setup, a, c, u, t, res, bytes, other)
    requires bytes != [] && IsTree(b.disk) && IsTree(c.disk)
    ensures b == c && code == other
  {
    hide InitDone, OtherUsersKept, OnlyUserDirsAdded, StateFileFits;
    if res.RES_PICTURE? && !a.Has(u, t) && u >= 0 && UserDir(u) !in a.disk.files {
      LeftIsThere(a.disk, bytes);
      hide Overwrite, Inside, IsTemp;
      forall p | !Inside(p, UserDir(u)) ensures SameAt(b.disk, c.disk, p) {
        if p != TMP { AlikeAt(a.disk, b.disk, c.disk, p); }
      }
      SetUpDetermined(setup, a, b, c, u);
    }
  }

  lemma LeftIsThere(d: Disk, bytes: Bytes)
    requires bytes != []
    ensures Overwrite(Content(d, TMP), bytes) != []
  {
  }

  lemma RemoveDetermined(a: State, b: State, c: State, u: int)
    requires RemoveOutcome(a, b, u) && RemoveOutcome(a, c, u) && IsTree(a.disk) && UserDir(u) !in a.disk.files
    requires u >= 0 && UserDir(u) in a.disk.dirs ==> UserGone(b.disk, u) && UserGone(c.disk, u)
    ensures b == c
  {
    if u >= 0 {
      if UserDir(u) !in a.disk.dirs { NothingInside(a.disk, u); }
      forall p ensures SameAt(b.disk, c.disk, p) {
        if !Inside(p, UserDir(u)) { AlikeAt(a.disk, b.disk, c.disk, p); }
      }
      SameDisks(b.disk, c.disk);
      TwoSlots(u);
      forall x: Slot ensures SameEntry(b, c, x) {
        if x.userId == u {
          assert !b.Has(u, x.wallpaperType) && !c.Has(u, x.wallpaperType);
        } else {
          assert SameEntry(a, b, x) && SameEntry(a, c, x);
        }
      }
      SameStates(b, c);
    }
  }

  lemma NothingInside(d: Disk, u: int)
    requires IsTree(d) && !Exists(d, UserDir(u))
    ensures forall p :: Inside(p, UserDir(u)) ==> !Exists(d, p)
  {
    forall p | Inside(p, UserDir(u)) ensures !Exists(d, p) {
      NothingInsideAt(d, u, p);
    }
  }

  lemma {:induction false} NothingInsideAt(d: Disk, u: int, p: Path)
    requires IsTree(d) && !Exists(d, UserDir(u)) && Inside(p, UserDir(u))
    ensures !Exists(d, p)
  {
    if p != UserDir(u) { NothingInsideAt(d, u, p.parent); }
  }

  lemma SwitchDetermined(setup: Setup, a: State, b: State, c: State, u: int, active: int)
    requires SwitchOutcome(setup, a, b, u, active) && SwitchOutcome(setup, a, c, u, active)
    requires SureSwitch(a, b, u, active) && SureSwitch(a, c, u, active) && PlaceFor(a.disk, u)
    ensures b == c
  {
    if u >= 0 && u != a.currentUserId {
      assert b.disk == c.disk by { SwitchDisk(setup, a, b, c, u, active); }
      hide Rebuild, DirsMade, PlaceFor, UserDirs, Speaks;
      forall x: Slot ensures SameEntry(b, c, x) {
        assert x == Slot(x.userId, x.wallpaperType);
        assert x.userId == u ==> b.Has(u, x.wallpaperType) && c.Has(u, x.wallpaperType) by { TwoSlots(u); }
        assert x.userId == active ==> (b.Has(active, x.wallpaperType) <==> c.Has(active, x.wallpaperType));
      }
      SameStates(b, c);
    }
  }

  lemma SwitchDisk(setup: Setup, a: State, b: State, c: State, u: int, active: int)
    requires Switching(setup, a, b, u, active) && Switching(setup, a, c, u, active)
    requires u >= 0 && u != a.currentUserId && PlaceFor(a.disk, u)
    requires SureSwitch(a, b, u, active) && SureSwitch(a, c, u, active)
    ensures b.disk == c.disk
  {
    hide Rebuild, Speaks, PlaceFor, UserDirs;
    if !Exists(a.disk, UserDir(u)) {
      assert b.disk.dirs == a.disk.dirs + UserDirs(u) == c.disk.dirs;
    }
  }

  lemma RestartDetermined(setup: Setup, a: State, b: State, c: State, active: int)
    requires RestartOutcome(setup, a, b, active) && RestartOutcome(setup, a, c, active)
    requires SureRestart(a, b, active) && SureRestart(a, c, active) && b.disk == c.disk
    ensures b == c
  {
    hide Rebuild, Speaks, ScaffoldOnly, Inside, SameAt;
    forall x: Slot ensures SameEntry(b, c, x) {
      assert x == Slot(x.userId, x.wallpaperType);
      assert x.userId == 0 ==> b.Has(0, x.wallpaperType) && c.Has(0, x.wallpaperType) by { TwoSlots(0); }
      assert x.userId == active ==> (b.Has(active, x.wallpaperType) <==> c.Has(active, x.wallpaperType));
    }
    SameStates(b, c);
  }

  lemma BootDetermined(setup: Setup, a: State, b: State, c: State, users: seq<int>)
    requires BootOutcome(setup, a, b, users) && BootOutcome(setup, a, c, users) && b.disk == c.disk
    ensures b == c
  {
    hide Rebuild, ScaffoldOnly;
    forall x: Slot ensures SameEntry(b, c, x) {
      if x.userId in users {
        assert IsRebuilt(setup, b, x) && IsRebuilt(setup, c, x);
      } else {
        assert SameEntry(a, b, x) && SameEntry(a, c, x);
      }
    }
    SameStates(b, c);
  }

  // ----- packages -----

  lemma InnerDetermined(setup: Setup, m: State, n: State, o: State, q: Request, code: ErrorCode)
    requires q.Custom? && code == SetAnswer(q.caller.userAllowed, q.content, q.wallpaperType, q.length, RES_PACKAGE)
    requires SetOutcome(setup, m, n, q.userId, q.caller.userAllowed, q.content, q.wallpaperType, q.length,
                        RES_PACKAGE, code)
    requires SetOutcome(setup, m, o, q.userId, q.caller.userAllowed, q.content, q.wallpaperType, q.length,
                        RES_PACKAGE, code)
    requires IsTree(n.disk) && IsTree(o.disk)
    ensures n == o
  {
    hide SetDone, Refused, Spoiled, Wiped, IsTree;
    if code == NO_ERROR {
      SetDetermined(setup, m, n, o, q.userId, TypeOf(q.wallpaperType), RES_PACKAGE,
                    Overwrite(Content(m.disk, TMP), Buffered(q.content, q.length)));
    }
  }

  /** The two states inside a package request on a reliable system. */
  lemma PackageParts(setup: Setup, a: State, q: Request, code: ErrorCode, b: State) returns (m: State, n: State)
    requires q.Custom? && SureStep(setup, a, q, code, b) && ReadyFor(a.disk, q)
    requires CustomPrecheck(q.caller, q.wallpaperType) == NO_ERROR && q.caller.sceneBoard
    ensures StateSaved(setup, a, m, q.userId, TypeOf(q.wallpaperType), RES_PACKAGE)
    ensures SetOutcome(setup, m, n, q.userId, q.caller.userAllowed, q.content, q.wallpaperType, q.length, RES_PACKAGE,
                       code)
    ensures b == WithPackage(setup, a, n, q.userId, TypeOf(q.wallpaperType)) && IsTree(n.disk)
  {
    hide Refused, SetOutcome, WithPackage, NewText, FillBoth, Fill, Rebuild, StateSaved, IsTree, RequestSure;
    var u, t := q.userId, TypeOf(q.wallpaperType);
    StateFileRuns.RefusedIssuesNone(setup, a, b, u);
    m, n :| StateSaved(setup, a, m, u, t, RES_PACKAGE) && IsTree(m.disk) &&
            SetOutcome(setup, m, n, u, q.caller.userAllowed, q.content, q.wallpaperType, q.length, RES_PACKAGE, code) &&
            b == WithPackage(setup, a, n, u, t);
    PackageFacts(setup, a, n, u, t);
  }

  lemma SavedOnce(setup: Setup, a: State, m: State, o: State, u: int, t: WallpaperType)
    requires StateSaved(setup, a, m, u, t, RES_PACKAGE) && StateSaved(setup, a, o, u, t, RES_PACKAGE)
    ensures m == o
  {
    hide NewText, FillBoth;
  }

  lemma PackageDetermined(setup: Setup, a: State, q: Request, code: ErrorCode, b: State, c: State)
    requires q.Custom? && ReadyFor(a.disk, q) && SureStep(setup, a, q, code, b) && SureStep(setup, a, q, code, c)
    requires code == AnswerTo(q)
    ensures b == c
  {
    hide Refused, SetOutcome, WithPackage, NewText, FillBoth, Fill, Rebuild, StateSaved, IsTree, RequestSure,
      SureEffect, SlotMissing, MissingEffect, Able;
    var u, t := q.userId, TypeOf(q.wallpaperType);
    if CustomPrecheck(q.caller, q.wallpaperType) == NO_ERROR && q.caller.sceneBoard {
      var m, n := PackageParts(setup, a, q, code, b);
      var o, r := PackageParts(setup, a, q, code, c);
      SavedOnce(setup, a, m, o, u, t);
      InnerDetermined(setup, m, n, r, q, code);
    }
  }

  // ----- whole steps and runs -----

  lemma ReadyDetermined(setup: Setup, a: State, q: Request, code: ErrorCode, b: State, other: ErrorCode, c: State)
    requires ReadyFor(a.disk, q) && SureStep(setup, a, q, code, b) && SureStep(setup, a, q, other, c)
    ensures code == other && b == c
  {
    SureAnswer(setup, a, q, code, b);
    SureAnswer(setup, a, q, other, c);
    hide SetDone, ResetDone, SetAllDone, CustomOutcome, Refused, Spoiled, Wiped, IsTree, RequestSure, SetAllSure,
      SlotMissing, MissingOutcome, MissingEffect, ListAnswer, DistinctScreens;
    var u, t := q.userId, TypeOf(q.wallpaperType);
    match q {
      case Set(_, _, content, _, length, res) =>
        if code == NO_ERROR {
          SetDetermined(setup, a, b, c, u, t, res, Overwrite(Content(a.disk, TMP), Buffered(content, length)));
        }
      case Custom(_, _, _, _, _) => PackageDetermined(setup, a, q, code, b, c);
      case Reset(_, _, _) => if code == NO_ERROR { ResetDetermined(setup, a, b, c, u, t); }
      case SetAll(_, _, items, _, wallpaperType) =>
        SureList(setup, a, q, code, b);
        SureList(setup, a, q, code, c);
        if Precheck(q) == NO_ERROR {
          if code == NO_ERROR {
            ListDetermined(setup, a, b, c, u, t, items, wallpaperType);
          } else if ListAnswer(items, wallpaperType) != NO_ERROR {
            assert ListRefused(setup, a, b, u, items, wallpaperType, code) &&
                   ListRefused(setup, a, c, u, items, wallpaperType, code) by {
              SureRefusedList(setup, a, b, u, t, items, wallpaperType, code);
              SureRefusedList(setup, a, c, u, t, items, wallpaperType, code);
            }
            RefusedListDetermined(setup, a, b, c, u, items, wallpaperType, code);
          } else {
            RepeatDetermined(setup, a, b, c, u, t, items, wallpaperType, code);
          }
        }
    }
  }

  lemma SureRefusedList(setup: Setup, a: State, b: State, u: int, t: WallpaperType, items: seq<Item>,
                        wallpaperType: int, code: ErrorCode)
    requires SetAllSure(setup, a, b, u, t, items, wallpaperType, code) && code != NO_ERROR &&
             ListAnswer(items, wallpaperType) != NO_ERROR
    ensures ListRefused(setup, a, b, u, items, wallpaperType, code)
  {
    hide ListRefused, ListAnswer;
  }

  lemma MissingDetermined(setup: Setup, a: State, q: Request, code: ErrorCode, b: State, other: ErrorCode, c: State)
    requires ForSlot(q) && Step(setup, a, q, code, b) && Step(setup, a, q, other, c)
    requires MissingEffect(setup, a, q, code, b) && MissingEffect(setup, a, q, other, c)
    ensures code == other && b == c
  {
    hide SetDone, ResetOutcome, SetAllOutcome, CustomOutcome, Refused, Spoiled, Wiped, IsTree, SetAllMissing,
      MissingOutcome, Buffered, ListAnswer, DistinctScreens;
    match q {
      case Set(u, _, content, t, length, res) =>
        if AnswerTo(q) == NO_ERROR {
          BufferedLength(content, length);
          MissingSetDetermined(setup, a, b, c, u, TypeOf(t), res, Buffered(content, length), code, other);
        }
      case Custom(_, _, _, _, _) =>
      case Reset(_, _, _) =>
      case SetAll(u, _, items, _, t) =>
        if Precheck(q) == NO_ERROR { MissingListDetermined(setup, a, b, c, u, TypeOf(t), items, t, code, other); }
    }
  }

  lemma EventDetermined(setup: Setup, a: State, q: Request, code: ErrorCode, b: State, other: ErrorCode, c: State)
    requires !ForSlot(q) && SureStep(setup, a, q, code, b) && SureStep(setup, a, q, other, c)
    requires Orderly(a.disk) && IsTree(a.disk)
    ensures b == c
  {
    hide InitOutcome, SureSetUp, RemoveOutcome, SwitchOutcome, RestartOutcome, BootOutcome, SureSwitch, SureRestart,
      UserGone, LaidOut, AllLaidOut, Laid, IsTree, Orderly, CanBeLaid, PlaceFor, CanSetUp, Exists;
    match q
    case Lookup(u, t, _) => if !a.Has(u, t) { InitDetermined(setup, a, b, c, u); }
    case InitUser(u) => InitDetermined(setup, a, b, c, u);
    case RemoveUser(u) =>
      assert IsUserDir(UserDir(u)) && UserDir(u) !in a.disk.files by { NoFileThere(a.disk, u); }
      RemoveDetermined(a, b, c, u);
    case SwitchUser(u, active) =>
      OrderlyPlace(a.disk, u);
      SwitchDetermined(setup, a, b, c, u, active);
    case Restart(active) =>
      OrderlyPlace(a.disk, 0);
      RestartDetermined(setup, a, b, c, active);
    case Boot(users) =>
      forall u | u in users ensures CanBeLaid(a.disk, u) { OrderlyPlace(a.disk, u); }
      BootDetermined(setup, a, b, c, users);
  }

  lemma NoFileThere(d: Disk, u: int)
    requires Orderly(d)
    ensures UserDir(u) !in d.files
  {
    assert IsUserDir(UserDir(u));
  }

  /** What a request answers and leaves behind, and what an account event or a read leaves behind, follows from
      the state before: no outcome on a reliable system is left to chance. */
  lemma StepDetermined(setup: Setup, a: State, q: Request, code: ErrorCode, b: State, other: ErrorCode, c: State)
    requires SureStep(setup, a, q, code, b) && SureStep(setup, a, q, other, c) && Orderly(a.disk) && IsTree(a.disk)
    ensures b == c && (ForSlot(q) ==> code == other)
  {
    hide SureStep, Step, Orderly, RequestSure, SlotMissing, MissingEffect, IsTree;
    if !ForSlot(q) {
      EventDetermined(setup, a, q, code, b, other, c);
    } else {
      ReadyOrMissing(a.disk, q.userId, TypeOf(q.wallpaperType));
      if GetWallpaperDir(q.userId, TypeOf(q.wallpaperType)) in a.disk.dirs {
        ReadyDetermined(setup, a, q, code, b, other, c);
      } else {
        TempRuns.IsMissing(setup, a, q, code, b);
        TempRuns.IsMissing(setup, a, q, other, c);
        MissingDetermined(setup, a, q, code, b, other, c);
      }
    }
  }

  /** So two runs of the same requests and events, on a reliable system, from the same state in order, pass
      through the same states and give the same answers. */
  lemma {:induction false} RunDetermined(setup: Setup, start: State, events: seq<Event>, others: seq<Event>, i: nat)
    requires SureRun(setup, start, events) && SureRun(setup, start, others) && |events| == |others|
    requires forall j :: 0 <= j < |events| ==> events[j].request == others[j].request
    requires Orderly(start.disk) && IsTree(start.disk) && i < |events|
    ensures events[i].after == others[i].after
    ensures ForSlot(events[i].request) ==> events[i].code == others[i].code
    decreases |events|
  {
    hide SureStep, Orderly, IsTree, Step;
    var e, o := events[0], others[0];
    StepDetermined(setup, start, e.request, e.code, e.after, o.code, o.after);
    if i > 0 {
      SureIsStep(setup, start, e.request, e.code, e.after);
      StepKeepsOrderly(setup, start, e.request, e.code, e.after);
      StepIsTree(setup, start, e.request, e.code, e.after);
      forall j | 0 <= j < |events[1..]| ensures events[1..][j].request == others[1..][j].request {
        assert events[1..][j] == events[j + 1] && others[1..][j] == others[j + 1];
      }
      RunDetermined(setup, e.after, events[1..], others[1..], i - 1);
    }
  }
}
