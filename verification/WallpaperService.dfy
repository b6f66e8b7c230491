/** The wallpaper service: two maps of entries kept in step with a directory tree.

    Requests run one after another. Permissions, the state of the account and the active user come
    from outside and are parameters; the pictures' bytes are what the caller's descriptor yields. */
module WallpaperService {
  import opened Paths
  import opened FileDeal
  import opened StateFile
  import opened ServiceState
  import opened EntryFacts
  import opened SlotSteps
  import opened ListSteps
  import opened UserSteps
  import opened ServiceRuns

  class WallpaperService {
    const fs: FileSystem
    const setup: Setup

    var systemWallpaperMap: map<int, WallpaperData>
    var lockWallpaperMap: map<int, WallpaperData>
    var wallpaperId: int
    var currentUserId: int
    /** How many ids were issued since start-up. */
    ghost var issued: nat

    constructor (fs: FileSystem, setup: Setup)
      requires IsTree(fs.disk)
      ensures this.fs == fs && this.setup == setup && Valid()
      ensures Snap() == State(fs.disk, imap[], -1, 0, 0)
    {
      this.fs, this.setup := fs, setup;
      systemWallpaperMap, lockWallpaperMap := map[], map[];
      wallpaperId, currentUserId, issued := -1, 0, 0;
    }

    ghost function Snap(): State
      reads this, fs
    {
      State(fs.disk, Joined(systemWallpaperMap, lockWallpaperMap), wallpaperId, issued, currentUserId)
    }

    ghost predicate Valid()
      reads this, fs
    {
      WellFormed(Snap())
    }

    // ----- the maps -----

    method Find(userId: int, t: WallpaperType) returns (found: bool, data: WallpaperData)
      ensures found == Snap().Has(userId, t)
      ensures if found then data == Snap().At(userId, t) else data.pictures.wallpaperFile == Empty
    {
      var entries := if t.System? then systemWallpaperMap else lockWallpaperMap;
      found := userId in entries;
      data := if found then entries[userId]
              else WallpaperData(0, Only(Empty), Empty, Empty, -1, false, RES_DEFAULT);
    }

    method InsertOrAssign(userId: int, t: WallpaperType, data: WallpaperData)
      modifies this
      ensures Snap() == old(Snap()).With(userId, t, data)
    {
      if t.System? {
        JoinedHome(systemWallpaperMap, lockWallpaperMap, userId, data);
        systemWallpaperMap := systemWallpaperMap[userId := data];
      } else {
        JoinedLock(systemWallpaperMap, lockWallpaperMap, userId, data);
        lockWallpaperMap := lockWallpaperMap[userId := data];
      }
    }

    method UpdataWallpaperMap(userId: int, t: WallpaperType)
      modifies this
      ensures Snap() == old(Snap()).With(userId, t, Rebuild(setup, fs.disk, userId, t))
    {
      var pictures := GetWallpaperDefaultPath(setup, t);
      if Exists(fs.disk, PicturePath(userId, t, Normal, Port)) {
        pictures := Pictures(
          GetExistFilePath(fs.disk, PicturePath(userId, t, Normal, Port)),
          GetExistFilePath(fs.disk, PicturePath(userId, t, Normal, Land)),
          GetExistFilePath(fs.disk, PicturePath(userId, t, Unfold1, Port)),
          GetExistFilePath(fs.disk, PicturePath(userId, t, Unfold1, Land)),
          GetExistFilePath(fs.disk, PicturePath(userId, t, Unfold2, Port)),
          GetExistFilePath(fs.disk, PicturePath(userId, t, Unfold2, Land)));
      }
      var data := WallpaperData(userId, pictures, LivePath(userId, t), PackagePath(userId, t), -1, true, RES_PICTURE);
      InsertOrAssign(userId, t, data);
    }

    /** The entry without its five extra pictures; a missing entry is rebuilt first. */
    method GetWallpaperSafeLocked(userId: int, t: WallpaperType) returns (ok: bool, data: WallpaperData)
      modifies this
      ensures ok
      ensures Snap() == Fill(setup, old(Snap()), userId, t)
      ensures data == Snap().At(userId, t).(pictures := Only(Snap().At(userId, t).pictures.wallpaperFile))
    {
      ok, data := Find(userId, t);
      if !ok {
        UpdataWallpaperMap(userId, t);
        ok, data := Find(userId, t);
      }
      data := data.(pictures := Only(data.pictures.wallpaperFile));
    }

    method MakeWallpaperIdLocked() returns (id: int)
      modifies this`wallpaperId, this`issued
      ensures Snap() == old(Snap()).Id()
      ensures id == wallpaperId
    {
      if wallpaperId == INT32_MAX {
        wallpaperId := -1;
      }
      wallpaperId := wallpaperId + 1;
      issued := issued + 1;
      id := wallpaperId;
    }

    // ----- the state file -----

    method SaveWallpaperState(userId: int, t: WallpaperType, res: ResourceType) returns (ok: bool)
      requires IsTree(fs.disk)
      modifies this, fs
      ensures IsTree(fs.disk)
      ensures Snap() == FillBoth(setup, old(Snap()), userId).(disk := fs.disk)
      ensures Written(old(fs.disk), fs.disk, StatePath(userId), NewText(setup, old(Snap()), userId, t, res), ok)
      ensures fs.reliable && Writable(old(fs.disk), StatePath(userId)) ==> ok
    {
      var hasSystem, systemData := GetWallpaperSafeLocked(userId, System);
      var hasLock, lockScreenData := GetWallpaperSafeLocked(userId, Lockscreen);
      var systemRes := if t.System? then res else systemData.resourceType;
      var lockScreenRes := if t.System? then lockScreenData.resourceType else res;
      ok := fs.Write(StatePath(userId), StateText(setup.template, systemRes, lockScreenRes));
    }

    // ----- set one wallpaper -----

    /** Copies a temporary file to its place and removes it. */
    method MoveTemp(source: Path, target: Path) returns (ok: bool)
      requires IsTree(fs.disk) && source != target
      modifies fs
      ensures IsTree(fs.disk)
      ensures ok ==> Moved(old(fs.disk), fs.disk, source, target)
      ensures forall p :: p != source && p != target ==> SameAt(old(fs.disk), fs.disk, p)
      ensures fs.disk.dirs <= old(fs.disk.dirs)
      ensures fs.reliable && source in old(fs.disk.files) && Writable(old(fs.disk), target) ==> ok
    {
      ok := fs.CopyFile(source, target);
      ghost var d := fs.disk;
      var deleted := fs.DeleteFile(source);
      DeletedIsFewer(d, fs.disk, source);
      ok := ok && deleted;
      forall p | p != source && p != target ensures SameAt(old(fs.disk), fs.disk, p) {
        assert SameAt(old(fs.disk), d, p) && SameAt(d, fs.disk, p);
      }
      assert SameAt(d, fs.disk, target);
    }

    /** The new entry under its new id, not yet published. */
    method DraftEntry(userId: int, res: ResourceType, t: WallpaperType) returns (data: WallpaperData)
      modifies this
      ensures Snap() == Fill(setup, old(Snap()), userId, t).Id()
      ensures Snap().Has(userId, t) && data == NewEntry(Snap(), userId, t, res)
    {
      hide Joined, Rebuild;
      var ok;
      ok, data := GetWallpaperSafeLocked(userId, t);
      if res.RES_PICTURE? || res.RES_DEFAULT? {
        data := data.(pictures := data.pictures.(wallpaperFile := PicturePath(userId, t, Normal, Port)));
      }
      data := data.(resourceType := res);
      var id := MakeWallpaperIdLocked();
      data := data.(wallpaperId := id);
    }

    method SetWallpaperBackupData(userId: int, res: ResourceType, t: WallpaperType) returns (code: ErrorCode)
      requires Valid()
      modifies this, fs
      ensures IsTree(fs.disk)
      ensures code == NO_ERROR ==> SetDone(setup, old(Snap()), Snap(), userId, t, res, Content(old(fs.disk), TMP))
      ensures code != NO_ERROR ==> code == E_DEAL_FAILED && Spoiled(setup, old(Snap()), Snap(), userId, t)
      ensures code != NO_ERROR && !Snap().Has(userId, t) ==> Snap() == old(Snap()).(disk := fs.disk)
      ensures GetWallpaperDir(userId, t) !in old(fs.disk.dirs) ==> code == E_DEAL_FAILED && Snap() == old(Snap())
      ensures BackupSure(fs.reliable, old(fs.disk), userId, t) ==> code == NO_ERROR
    {
      hide Joined, SetDone, Spoiled, Installed, Touched, DirDeleted, Moved, Written, IsTree, FillBoth, Below,
        Rebuild, NewText, StateKept, SameAt, PicturesFor, Writable, BackupSure, WellFormed, Fill, Exists, Valid;
      ghost var a, d0 := Snap(), fs.disk;
      ValidIsTree();
      SureToStart(fs.reliable, fs.disk, userId, t);
      if !Exists(fs.disk, TMP) {
        Unchanged(d0, userId, t);
        ClearingSpoils(setup, a, d0, userId, t);
        return E_DEAL_FAILED;
      }
      var cleared := fs.DeleteDir(GetWallpaperDir(userId, t), false);
      ghost var d1 := fs.disk;
      ClearedIsTouched(d0, d1, userId, t, cleared);
      ClearingSpoils(setup, a, d1, userId, t);
      if !cleared {
        return E_DEAL_FAILED;
      }
      var data := DraftEntry(userId, res, t);
      TargetInDir(setup, a, d1, userId, t, res);
      var wallpaperFile := GetWallpaperFile(res, data);
      SureToInstall(setup, fs.reliable, a, d1, userId, t, res);
      var moved := MoveTemp(TMP, wallpaperFile);
      ghost var d2 := fs.disk;
      MoveIsTouched(d0, d1, d2, userId, t, wallpaperFile);
      FirstFillSpoils(setup, a, d1, d2, userId, t);
      if !moved {
        return E_DEAL_FAILED;
      }
      ghost var m := Snap();
      SureToAnnounce(fs.reliable, d1, d2, userId, t, wallpaperFile);
      SameText(setup, a, d1, d2, userId, t, res);
      code := Announce(userId, res, t, data);
      ghost var d3 := fs.disk;
      ghost var text := NewText(setup, a, userId, t, res);
      WriteIsTouched(d0, d2, d3, userId, t, text, code == NO_ERROR);
      if code == NO_ERROR {
        InstalledByParts(d0, d1, d2, d3, userId, t, wallpaperFile, text);
        OtherRebuildUntouched(setup, d2, d3, userId, t);
        PublishedEntries(setup, a, d1, d2, d3, userId, t, res);
      } else {
        UnsavedKeepsState(d0, d2, d3, userId, text);
        OtherRebuildUntouched(setup, d2, d3, userId, t);
        FillSpoils(setup, a, m, d3, userId, t);
      }
    }

    /** Saves the state file and publishes the entry. */
    method Announce(userId: int, res: ResourceType, t: WallpaperType, data: WallpaperData) returns (code: ErrorCode)
      requires IsTree(fs.disk)
      modifies this, fs
      ensures IsTree(fs.disk)
      ensures code == NO_ERROR || code == E_DEAL_FAILED
      ensures Written(old(fs.disk), fs.disk, StatePath(userId), NewText(setup, old(Snap()), userId, t, res),
                      code == NO_ERROR)
      ensures var filled := FillBoth(setup, old(Snap()), userId).(disk := fs.disk);
              Snap() == (if code == NO_ERROR then filled.With(userId, t, data) else filled) && Snap().Has(userId, t)
      ensures fs.reliable && Writable(old(fs.disk), StatePath(userId)) ==> code == NO_ERROR
    {
      var saved := SaveWallpaperState(userId, t, res);
      if !saved {
        return E_DEAL_FAILED;
      }
      InsertOrAssign(userId, t, data);
      return NO_ERROR;
    }

    static function GetWallpaperFile(res: ResourceType, data: WallpaperData): Path {
      match res
      case RES_PICTURE => data.pictures.wallpaperFile
      case RES_DEFAULT => data.pictures.wallpaperFile
      case RES_VIDEO => data.liveWallpaperFile
      case RES_PACKAGE => data.customPackageUri
    }

    // ----- users -----

    method InitUserDir(userId: int) returns (ok: bool)
      requires IsTree(fs.disk)
      modifies fs
      ensures IsTree(fs.disk)
      ensures DirsMade(old(fs.disk), fs.disk, userId, ok)
      ensures fs.reliable && PlaceFor(old(fs.disk), userId) ==> ok
    {
      ok := fs.Mkdir(UserDir(userId));
      if !ok {
        return;
      }
      ok := fs.Mkdir(GetWallpaperDir(userId, System));
      if !ok {
        return;
      }
      ok := fs.Mkdir(GetWallpaperDir(userId, Lockscreen));
    }

    method OnInitUser(userId: int)
      requires IsTree(fs.disk)
      modifies this, fs
      ensures IsTree(fs.disk)
      ensures InitOutcome(setup, old(Snap()), Snap(), userId)
      ensures fs.reliable ==> SureSetUp(setup, old(Snap()), Snap(), userId)
      ensures !CanSetUp(old(fs.disk), userId) ==> Snap() == old(Snap())
    {
      if UserDir(userId) in fs.disk.files { FileIsNoDir(fs.disk, UserDir(userId)); }
      hide Joined, InitOutcome, InitDone, DirDeleted, DirsMade, IsTree, Rebuild, Inside, PlaceFor;
      ghost var a := Snap();
      if userId < 0 {
        InitRefused(setup, a, userId);
        return;
      }
      if Exists(fs.disk, UserDir(userId)) {
        var deleted := fs.DeleteDir(UserDir(userId), true);
        if !deleted {
          WipeFailed(setup, a, fs.disk, userId);
          return;
        }
      }
      ghost var d1 := fs.disk;
      EmptyUserDir(a.disk, d1, userId);
      if Base in a.disk.dirs { EmptyHasPlace(a.disk, d1, userId); }
      var made := InitUserDir(userId);
      InitByParts(setup, a, d1, fs.disk, userId, made);
      if !made {
        return;
      }
      UpdataWallpaperMap(userId, System);
      UpdataWallpaperMap(userId, Lockscreen);
    }

    /** A missing entry makes the service set the user up afresh. */
    method GetPictureFileName(userId: int, t: WallpaperType) returns (ok: bool, filePathName: Path)
      requires IsTree(fs.disk)
      modifies this, fs
      ensures IsTree(fs.disk)
      ensures LookupOutcome(setup, old(Snap()), Snap(), userId, t)
      ensures fs.reliable ==> SureRead(setup, old(Snap()), Snap(), userId, t)
      ensures !CanSetUp(old(fs.disk), userId) ==> Snap() == old(Snap())
      ensures ok <==> filePathName != Empty
      ensures filePathName == if Snap().Has(userId, t) then Snap().At(userId, t).pictures.wallpaperFile else Empty
    {
      var found, data := Find(userId, t);
      if !found {
        OnInitUser(userId);
        found, data := Find(userId, t);
      }
      filePathName := data.pictures.wallpaperFile;
      ok := filePathName != Empty;
    }

    /** read(2) into a zeroed buffer, then open and write(2) of the whole buffer. */
    method WriteTemp(path: Path, content: Bytes, length: nat) returns (code: ErrorCode)
      requires IsTree(fs.disk)
      modifies fs
      ensures IsTree(fs.disk)
      ensures code == NO_ERROR || code == E_NO_MEMORY || code == E_DEAL_FAILED
      ensures code == E_NO_MEMORY ==> fs.disk == old(fs.disk) && !fs.reliable
      ensures Written(old(fs.disk), fs.disk, path, Buffered(content, length), code == NO_ERROR)
      ensures fs.reliable && Writable(old(fs.disk), path) ==> code == if content == [] then E_DEAL_FAILED else NO_ERROR
      ensures content == [] ==> code != NO_ERROR && fs.disk == old(fs.disk)
    {
      if !fs.reliable {
        if * {
          return E_NO_MEMORY;
        }
        if * {
          return E_DEAL_FAILED;
        }
      }
      if content == [] {
        return E_DEAL_FAILED;
      }
      var written := fs.Write(path, Buffered(content, length));
      code := if written then NO_ERROR else E_DEAL_FAILED;
    }

    method SetWallpaper(userId: int, allowed: bool, content: Bytes, wallpaperType: int, length: int, res: ResourceType)
      returns (code: ErrorCode)
      requires Valid()
      modifies this, fs
      ensures IsTree(fs.disk)
      ensures SetOutcome(setup, old(Snap()), Snap(), userId, allowed, content, wallpaperType, length, res, code)
      ensures RequestSure(fs.reliable, old(fs.disk), userId, TypeOf(wallpaperType)) ==>
                code == SetAnswer(allowed, content, wallpaperType, length, res)
      ensures fs.reliable && SlotMissing(old(fs.disk), userId, TypeOf(wallpaperType)) ==>
                code == SetMissingAnswer(allowed, content, wallpaperType, length, res) &&
                (SetAnswer(allowed, content, wallpaperType, length, res) == NO_ERROR ==>
                   MissingOutcome(setup, old(Snap()), Snap(), userId, TypeOf(wallpaperType), res,
                                  Buffered(content, length), code))
    {
      hide Joined, InitDone, Wiped, SlotMissing, SetDone, Spoiled, Refused, InitOutcome, Written, IsTree,
        RequestSure, BackupSure, Writable, WellFormed;
      ghost var a := Snap();
      WellFormedTree(a);
      SureForTemps(fs.reliable, fs.disk, userId, TypeOf(wallpaperType));
      if !allowed {
        return E_USER_IDENTITY_ERROR;
      }
      code := CheckValid(wallpaperType, length, res);
      if code != NO_ERROR {
        return;
      }
      var t := TypeOf(wallpaperType);
      if SlotMissing(a.disk, userId, t) { MissingForTemp(a.disk, userId, t); }
      code := WriteTemp(TMP, content, length);
      ghost var m := Snap();
      TempWritten(setup, a, fs.disk, userId, Buffered(content, length), code == NO_ERROR);
      if code != NO_ERROR {
        return;
      }
      SureAfterTemp(fs.reliable, a.disk, m.disk, userId, t, Buffered(content, length));
      code := SetWallpaperBackupData(userId, res, t);
      ghost var b := Snap();
      TempThenBackup(setup, a, m, b, userId, t, res, Buffered(content, length), code);
      TempLeft(a.disk, m.disk, Buffered(content, length));
      if res.RES_PICTURE? {
        var _, _ := GetPictureFileName(userId, t);
        if !b.Has(userId, t) {
          MissingThenInit(setup, a, b, Snap(), userId, t);
          TempSurvivesInit(setup, b, Snap(), userId);
        }
      }
    }

    // ----- reset -----

    method ResetWallpaper(userId: int, caller: Caller, wallpaperType: int) returns (code: ErrorCode)
      requires Valid()
      modifies this, fs
      ensures IsTree(fs.disk)
      ensures ResetOutcome(setup, old(Snap()), Snap(), userId, caller, wallpaperType, code)
      ensures RequestSure(fs.reliable, old(fs.disk), userId, TypeOf(wallpaperType)) ==>
                code == ResetPrecheck(caller, wallpaperType)
      ensures GetWallpaperDir(userId, TypeOf(wallpaperType)) !in old(fs.disk.dirs) &&
              ResetPrecheck(caller, wallpaperType) == NO_ERROR ==>
                code == E_DEAL_FAILED && Snap() == Fill(setup, old(Snap()), userId, TypeOf(wallpaperType))
    {
      if !caller.canSet {
        return E_NO_PERMISSION;
      }
      if !IsType(wallpaperType) {
        return E_PARAMETERS_INVALID;
      }
      if !caller.userAllowed {
        return E_USER_IDENTITY_ERROR;
      }
      code := SetDefaultDataForWallpaper(userId, TypeOf(wallpaperType));
    }

    method SetDefaultDataForWallpaper(userId: int, t: WallpaperType) returns (code: ErrorCode)
      requires Valid()
      modifies this, fs
      ensures IsTree(fs.disk)
      ensures code == NO_ERROR ==> ResetDone(setup, old(Snap()), Snap(), userId, t)
      ensures code != NO_ERROR ==> code == E_DEAL_FAILED && Spoiled(setup, old(Snap()), Snap(), userId, t)
      ensures RequestSure(fs.reliable, old(fs.disk), userId, t) ==> code == NO_ERROR
      ensures GetWallpaperDir(userId, t) !in old(fs.disk.dirs) ==>
                code == E_DEAL_FAILED && Snap() == Fill(setup, old(Snap()), userId, t)
    {
      hide RequestSure, Writable, Joined, ResetDone, Spoiled, Touched, DirDeleted, Written, IsTree, FillBoth, Fill,
        Rebuild, NewText, StateKept, SameAt, WellFormed, GetWallpaperDefaultPath;
      ghost var a, d0 := Snap(), fs.disk;
      assert IsTree(d0) by { WellFormedTree(a); }
      FillFacts(setup, a, userId, t);
      SureToReset(fs.reliable, d0, userId, t);
      var found, data := GetWallpaperSafeLocked(userId, t);
      var restored;
      restored, data := RestoreUserResources(userId, t);
      ghost var d1 := fs.disk;
      ClearedIsTouched(d0, d1, userId, t, restored);
      NothingToReset(d0, d1, userId, t, restored);
      LookupThenClear(setup, a, d1, userId, t);
      if !restored {
        return E_DEAL_FAILED;
      }
      ghost var m := Snap();
      SureAfterClearing(fs.reliable, d0, d1, userId, t);
      SameTextFilled(setup, a, d1, userId, t, RES_DEFAULT);
      data := data.(wallpaperId := -1, resourceType := RES_DEFAULT, allowBackup := true);
      code := Announce(userId, RES_DEFAULT, t, data);
      ghost var d2 := fs.disk;
      ghost var text := NewText(setup, a, userId, t, RES_DEFAULT);
      WriteIsTouched(d0, d1, d2, userId, t, text, code == NO_ERROR);
      if code == NO_ERROR {
        ResetByParts(setup, a, d1, d2, userId, t);
      } else {
        UnsavedKeepsState(d0, d1, d2, userId, text);
        OtherRebuildUntouched(setup, d1, d2, userId, t);
        FillSpoils(setup, a, m, d2, userId, t);
        return;
      }
      ResetHas(setup, a, Snap(), userId, t);
      var _, _ := GetPictureFileName(userId, t);
    }

    method RestoreUserResources(userId: int, t: WallpaperType) returns (ok: bool, data: WallpaperData)
      requires IsTree(fs.disk)
      modifies fs
      ensures IsTree(fs.disk)
      ensures DirDeleted(old(fs.disk), fs.disk, GetWallpaperDir(userId, t), false, ok)
      ensures ok ==> data == WallpaperData(userId, GetWallpaperDefaultPath(setup, t), LivePath(userId, t),
                                           PackagePath(userId, t), -1, true, RES_PICTURE)
      ensures fs.reliable && GetWallpaperDir(userId, t) in old(fs.disk.dirs) ==> ok
    {
      data := WallpaperData(userId, GetWallpaperDefaultPath(setup, t), LivePath(userId, t),
                            PackagePath(userId, t), -1, true, RES_PICTURE);
      DefaultPictures(setup, t);
      ok := fs.DeleteDir(GetWallpaperDir(userId, t), false);
    }

    // ----- a custom package -----

    method SetCustomWallpaper(userId: int, caller: Caller, content: Bytes, wallpaperType: int, length: int)
      returns (code: ErrorCode)
      requires Valid()
      modifies this, fs
      ensures IsTree(fs.disk)
      ensures CustomOutcome(setup, old(Snap()), Snap(), userId, caller, content, wallpaperType, length, code)
      ensures RequestSure(fs.reliable, old(fs.disk), userId, TypeOf(wallpaperType)) ==>
                code == CustomAnswer(caller, content, wallpaperType, length) &&
                (CustomPrecheck(caller, wallpaperType) == NO_ERROR && caller.sceneBoard ==>
                   Snap().issued > old(Snap()).issued)
      ensures fs.reliable && SlotMissing(old(fs.disk), userId, TypeOf(wallpaperType)) ==>
                CustomMissing(setup, old(Snap()), Snap(), userId, caller, content, wallpaperType, length, code)
    {
      hide RequestSure, Writable, Joined, Refused, Written, IsTree, FillBoth, Fill, SetOutcome, WellFormed, NewText,
        SlotMissing, SetMissingAnswer, SetAnswer, MissingOutcome, Announced, LeftInTemp;
      ghost var a := Snap();
      assert IsTree(fs.disk) by { WellFormedTree(a); }
      if !caller.systemApp {
        return E_NOT_SYSTEM_APP;
      }
      if !caller.canSet {
        return E_NO_PERMISSION;
      }
      if !IsType(wallpaperType) {
        return E_PARAMETERS_INVALID;
      }
      var t := TypeOf(wallpaperType);
      FillFacts(setup, a, userId, t);
      var found, data := GetWallpaperSafeLocked(userId, t);
      if !caller.sceneBoard {
        return E_NO_PERMISSION;
      }
      FillTwice(setup, a, userId, t);
      SameTextFilled(setup, a, a.disk, userId, t, RES_PACKAGE);
      SureToReset(fs.reliable, a.disk, userId, t);
      var saved := SaveWallpaperState(userId, t, RES_PACKAGE);
      ghost var m := Snap();
      MissingCannotSave(setup, a, m.disk, userId, t, saved);
      if SlotMissing(a.disk, userId, t) {
        MissingStays(a.disk, m.disk, userId, userId, t, NewText(setup, a, userId, t, RES_PACKAGE), saved);
      }
      if !saved {
        NotSaved(setup, a, fs.disk, userId, t);
        FillBothFacts(setup, a, userId);
        return E_DEAL_FAILED;
      }
      FilledWellFormed(setup, a, fs.disk, userId);
      SureAfterState(fs.reliable, a.disk, m.disk, userId, t, NewText(setup, a, userId, t, RES_PACKAGE));
      code := SetWallpaper(userId, caller.userAllowed, content, wallpaperType, length, RES_PACKAGE);
      ghost var n := Snap();
      SetIssues(setup, m, n, userId, caller.userAllowed, content, wallpaperType, length, RES_PACKAGE, code);
      if fs.reliable && SlotMissing(a.disk, userId, t) {
        MissingInner(setup, m, n, userId, caller.userAllowed, content, wallpaperType, length, code);
      }
      assert m.issued == a.issued by { FillBothFacts(setup, a, userId); }
      var id := MakeWallpaperIdLocked();
      data := data.(resourceType := RES_PACKAGE, wallpaperId := id);
      InsertOrAssign(userId, t, data);
      assert StateSaved(setup, a, m, userId, t, RES_PACKAGE);
      assert Snap() == WithPackage(setup, a, n, userId, t);
    }

    // ----- set all wallpapers -----

    method DeleteTempResource(items: seq<Item>)
      requires IsTree(fs.disk)
      modifies fs
      ensures IsTree(fs.disk)
      ensures OnlyTemps(old(fs.disk), fs.disk, items)
      ensures Fewer(old(fs.disk), fs.disk)
      ensures fs.reliable && TempsReady(old(fs.disk)) ==> NoTempLeft(fs.disk, items)
    {
      for i := 0 to |items|
        invariant IsTree(fs.disk)
        invariant OnlyTemps(old(fs.disk), fs.disk, items)
        invariant Fewer(old(fs.disk), fs.disk)
        invariant fs.reliable && TempsReady(old(fs.disk)) ==>
                    forall j :: 0 <= j < i ==> !Exists(fs.disk, items[j].TempFile())
      {
        ghost var before := fs.disk;
        var _ := fs.DeleteFile(items[i].TempFile());
        DeletedIsFewer(before, fs.disk, items[i].TempFile());
        assert OnlyTemps(before, fs.disk, items) by {
          assert forall p :: !IsTempOf(items, p) ==> items[i].TempFile() != p;
        }
        OnlyTempsTransitive(old(fs.disk), before, fs.disk, items);
      }
    }

    /** The first loop of SetAllWallpapers. */
    method WriteAllTemps(items: seq<Item>, wallpaperType: int) returns (code: ErrorCode)
      requires IsTree(fs.disk)
      modifies fs
      ensures IsTree(fs.disk)
      ensures OnlyTemps(old(fs.disk), fs.disk, items)
      ensures match code
              case NO_ERROR => TempsWritten(old(fs.disk), fs.disk, wallpaperType, items)
              case E_DEAL_FAILED =>
                fs.reliable && TempsReady(old(fs.disk)) && TempsWritable(old(fs.disk)) ==>
                  exists i: nat :: EmptyAt(items, wallpaperType, i) && NoTempLeft(fs.disk, items[..i + 1]) &&
                                   OnlyTemps(old(fs.disk), fs.disk, items[..i + 1])
              case E_NO_MEMORY => !fs.reliable
              case _ =>
                exists i :: 0 <= i < |items| && CheckValid(wallpaperType, items[i].length, RES_PICTURE) == code &&
                            ListAnswer(items[..i], wallpaperType) == NO_ERROR &&
                            TempsWritten(old(fs.disk), fs.disk, wallpaperType, items[..i])
      ensures fs.reliable && TempsWritable(old(fs.disk)) ==> code == ListAnswer(items, wallpaperType)
      ensures code == NO_ERROR ==> ListAnswer(items, wallpaperType) == NO_ERROR
      ensures fs.disk.dirs <= old(fs.disk.dirs)
    {
      hide OnlyTemps, Fewer, TempsWritten, Written, TempsWritable, TempsReady, NoTempLeft, Writable, ListAnswer;
      ListNothing(wallpaperType, items);
      NothingTouched(fs.disk, items);
      assert TempsWritten(fs.disk, fs.disk, wallpaperType, items[..0]) by { NoTemps(fs.disk, wallpaperType, items); }
      for i := 0 to |items|
        invariant IsTree(fs.disk)
        invariant TempsWritten(old(fs.disk), fs.disk, wallpaperType, items[..i])
        invariant OnlyTemps(old(fs.disk), fs.disk, items)
        invariant TempsWritable(old(fs.disk)) ==> TempsWritable(fs.disk)
        invariant TempsReady(old(fs.disk)) ==> TempsReady(fs.disk)
        invariant fs.disk.dirs == old(fs.disk.dirs)
        invariant ListAnswer(items[..i], wallpaperType) == NO_ERROR
      {
        ghost var before := fs.disk;
        code := CheckValid(wallpaperType, items[i].length, RES_PICTURE);
        ListStep(items, wallpaperType, i);
        if ListAnswer(items[..i + 1], wallpaperType) != NO_ERROR { ListStops(items, wallpaperType, i + 1); }
        if TempsWritable(before) { WritableAt(before, items[i].foldState, items[i].rotateState); }
        if code != NO_ERROR {
          return;
        }
        code := WriteTemp(items[i].TempFile(), items[i].content, items[i].length);
        WriteTouchesTemp(before, fs.disk, items, i, code == NO_ERROR);
        StillWritable(before, fs.disk, items[i].TempFile(), items[i].Buffer(), code == NO_ERROR);
        OnlyTempsTransitive(old(fs.disk), before, fs.disk, items);
        if code != NO_ERROR {
          ghost var failed := fs.disk;
          FailedTemp(old(fs.disk), before, failed, wallpaperType, items, i);
          DeleteTempResource(items[..i + 1]);
          FewerDirs(failed, fs.disk);
          OnlyTempsTransitive(old(fs.disk), failed, fs.disk, items[..i + 1]);
          FewerTemps(failed, fs.disk, items, i);
          assert fs.reliable && TempsWritable(old(fs.disk)) ==> EmptyAt(items, wallpaperType, i);
          OnlyTempsTransitive(old(fs.disk), failed, fs.disk, items);
          return;
        }
        TempsWrittenStep(old(fs.disk), before, fs.disk, wallpaperType, items, i);
      }
      assert items[..|items|] == items;
      code := NO_ERROR;
    }

    method SetAllWallpaperBackupData(items: seq<Item>, userId: int, t: WallpaperType, data: WallpaperData)
      returns (code: ErrorCode, updated: WallpaperData, ghost done: nat)
      requires IsTree(fs.disk)
      modifies fs
      ensures IsTree(fs.disk)
      ensures code == NO_ERROR || code == E_DEAL_FAILED
      ensures MovesOnly(old(fs.disk), fs.disk, userId, t, items)
      ensures code == NO_ERROR ==> AllMoved(old(fs.disk), fs.disk, userId, t, items)
      ensures code == NO_ERROR ==> PicturesSet(data.pictures, updated.pictures, userId, t, items)
      ensures code == NO_ERROR ==> updated == data.(pictures := updated.pictures)
      ensures fs.reliable && MovesReady(old(fs.disk), userId, t, items, 0) && code != NO_ERROR ==>
                done < |items| && RepeatsAt(items, done) && AllMoved(old(fs.disk), fs.disk, userId, t, items[..done])
      ensures fs.disk.dirs <= old(fs.disk.dirs)
    {
      hide AllMoved, PicturesSet, Moved, MovesReady, DistinctScreens, Writable, RepeatsAt;
      ghost var sure := fs.reliable && MovesReady(fs.disk, userId, t, items, 0);
      updated, done := data, 0;
      NothingMoved(fs.disk, data.pictures, userId, t, items);
      for i := 0 to |items|
        invariant IsTree(fs.disk)
        invariant AllMoved(old(fs.disk), fs.disk, userId, t, items[..i])
        invariant MovesOnly(old(fs.disk), fs.disk, userId, t, items)
        invariant PicturesSet(data.pictures, updated.pictures, userId, t, items[..i])
        invariant updated == data.(pictures := updated.pictures)
        invariant sure ==> MovesReady(fs.disk, userId, t, items, i)
        invariant fs.disk.dirs <= old(fs.disk.dirs)
      {
        ghost var before := fs.disk;
        MovedAreGone(old(fs.disk), before, userId, t, items, i);
        var temp, target := items[i].TempFile(), items[i].Target(userId, t);
        if !Exists(fs.disk, temp) {
          if sure { MissingIsRepeat(before, userId, t, items, i); }
          return E_DEAL_FAILED, updated, i;
        }
        if sure { MoveIsReady(before, userId, t, items, i); }
        PicturesSetStep(data.pictures, updated.pictures, userId, t, items, i);
        updated := updated.(pictures := updated.pictures.With(items[i].foldState, items[i].rotateState, target));
        var moved := MoveTemp(temp, target);
        MovesOnlyStep(old(fs.disk), before, fs.disk, userId, t, items, i);
        if sure { MovesStayReady(before, fs.disk, userId, t, items, i); }
        if !moved {
          return E_DEAL_FAILED, updated, i;
        }
        AllMovedStep(old(fs.disk), before, fs.disk, userId, t, items, i);
      }
      assert items[..|items|] == items;
      code := NO_ERROR;
    }

    method UpdateWallpaperData(items: seq<Item>, userId: int, t: WallpaperType,
                               ghost a: State, ghost d1: Disk, ghost wallpaperType: int, ghost cleared: bool)
      returns (code: ErrorCode)
      requires WellFormed(a) && IsTree(d1) && IsTree(fs.disk) && Snap() == a.(disk := fs.disk)
      requires TempsWritten(a.disk, d1, wallpaperType, items)
      requires DirDeleted(d1, fs.disk, GetWallpaperDir(userId, t), false, cleared) && d1.dirs <= a.disk.dirs
      modifies this, fs
      ensures IsTree(fs.disk)
      ensures code == NO_ERROR ==> SetAllDone(setup, a, Snap(), userId, t, items)
      ensures code != NO_ERROR ==> code == E_DEAL_FAILED && Spoiled(setup, a, Snap(), userId, t)
      ensures fs.reliable && cleared ==> code == if DistinctScreens(items) then NO_ERROR else E_DEAL_FAILED
      ensures fs.reliable && cleared && code != NO_ERROR ==>
                exists i: nat :: RepeatsAt(items, i) && PicturesLeft(fs.disk, userId, t, items[..i]) &&
                                 PicturesHold(a.disk, fs.disk, userId, t, items, i)
      ensures code != NO_ERROR ==> forall p :: IsTemp(p) && !IsTempOf(items, p) ==> SameAt(a.disk, fs.disk, p)
      ensures cleared ==> Snap().Has(userId, t)
      ensures cleared && code != NO_ERROR ==> Snap() == FillEmptied(setup, a, userId, t).(disk := fs.disk)
      ensures code != NO_ERROR ==> SameAt(a.disk, fs.disk, StatePath(userId))
      ensures cleared && code == NO_ERROR && !a.Has(userId, t) && !Listed(items, Normal, Port) ==>
                Snap().At(userId, t).pictures.wallpaperFile == GetWallpaperDefaultPath(setup, t).wallpaperFile
      ensures code == NO_ERROR && cleared ==> HoldsOnly(fs.disk, userId, t, items)
      ensures code != NO_ERROR && fs.reliable && TempsReady(old(fs.disk)) ==> NoTempLeft(fs.disk, items)
      ensures GetWallpaperDir(userId, t) !in d1.dirs && |items| > 0 ==>
                code == E_DEAL_FAILED && OnlyTemps(a.disk, fs.disk, items) &&
                Snap() == Fill(setup, a, userId, t).(disk := fs.disk)
    {
      hide PicturesHold, TempsReady, NoTempLeft, MovesReady, DistinctScreens, HoldsOnly, RepeatsAt, PicturesLeft, Fewer,
        IsTempOf, Listed, Joined, AllMoved, PicturesSet, DirDeleted, TempsWritten, SetAllDone, Spoiled, MovesOnly,
        IsTree,
        WellFormed, Fill, FillEmptied, Rebuild, OnlyTemps, Touched, SameAt;
      ghost var d2 := fs.disk;
      FillFacts(setup, a.(disk := d2), userId, t);
      if cleared {
        ClearedIsTouched(d1, d2, userId, t, true);
        FilledDefault(setup, a, d2, userId, t);
      }
      var found, data := GetWallpaperSafeLocked(userId, t);
      assert OnlyTemps(a.disk, d1, items) by { WrittenOnlyTemps(a.disk, d1, wallpaperType, items); }
      if cleared { SureToMove(a.disk, d1, d2, userId, t, items, wallpaperType); }
      ghost var done;
      ghost var before := data.pictures;
      code, data, done := SetAllWallpaperBackupData(items, userId, t, data);
      ghost var d3 := fs.disk;
      FewerDirsReady(d2, d3);
      if GetWallpaperDir(userId, t) !in d1.dirs {
        NothingMovesThere(d1, d2, d3, userId, t, items, cleared);
      }
      if code != NO_ERROR {
        DeleteTempResource(items);
        FewerDirs(d3, fs.disk);
        if GetWallpaperDir(userId, t) !in d1.dirs {
          MissingList(setup, a, d1, d2, d3, fs.disk, userId, t, items, cleared);
        }
        if fs.reliable && cleared {
          RepeatLeaves(d1, d2, d3, fs.disk, userId, t, items, done);
          RepeatHolds(a.disk, d1, d2, d3, fs.disk, userId, t, items, done, wallpaperType);
          RepeatIsNotDistinct(items, done);
        }
        MovesThenTemps(d2, d3, fs.disk, userId, t, items);
        OtherTempsKept(a.disk, d1, d2, fs.disk, userId, t, items, cleared);
        SetAllTouched(a.disk, d1, d2, fs.disk, userId, t, items, cleared);
        FillTouchedSpoils(setup, a, d2, fs.disk, userId, t);
        return;
      }
      MovedAreDistinct(d2, d3, userId, t, items);
      if !Listed(items, Normal, Port) { PortraitUnlisted(before, data.pictures, userId, t, items); }
      if cleared { ClearedHoldsOnly(d1, d2, d3, userId, t, items); }
      data := data.(resourceType := RES_PICTURE);
      var id := MakeWallpaperIdLocked();
      data := data.(wallpaperId := id);
      SetAllByParts(setup, a, d1, d2, d3, userId, t, items, wallpaperType, cleared, data.pictures);
      InsertOrAssign(userId, t, data);
    }

    method SetAllWallpapers(userId: int, caller: Caller, items: seq<Item>, fdCount: nat, wallpaperType: int)
      returns (code: ErrorCode)
      requires Valid()
      modifies this, fs
      ensures IsTree(fs.disk)
      ensures SetAllOutcome(setup, old(Snap()), Snap(), userId, caller, items, fdCount, wallpaperType, code)
      ensures ListSure(fs.reliable, old(fs.disk), userId, TypeOf(wallpaperType)) ==>
                code == SetAllAnswer(caller, items, fdCount, wallpaperType) &&
                (SetAllPrecheck(caller, items, fdCount) == NO_ERROR ==>
                   SetAllSure(setup, old(Snap()), Snap(), userId, TypeOf(wallpaperType), items, wallpaperType, code))
      ensures fs.reliable && SlotMissing(old(fs.disk), userId, TypeOf(wallpaperType)) &&
              SetAllPrecheck(caller, items, fdCount) == NO_ERROR ==>
                SetAllMissing(setup, old(Snap()), Snap(), userId, TypeOf(wallpaperType), items, wallpaperType, code)
    {
      hide PicturesHold, ListSure, SlotMissing, NoTempLeft, RepeatsAt, PicturesLeft, IsTempOf, Listed, TempsReady,
        RequestSure, TempsWritable, ListAnswer, DistinctScreens, HoldsOnly, Joined, DirDeleted, TempsWritten,
        SetAllDone, Spoiled, Refused, IsTree, WellFormed, OnlyTemps;
      ghost var a := Snap();
      assert IsTree(fs.disk) by { WellFormedTree(a); }
      if |items| != fdCount || fdCount == 0 {
        return E_DEAL_FAILED;
      }
      if !caller.systemApp && !caller.nativeSa {
        return E_NOT_SYSTEM_APP;
      }
      if !caller.canSet {
        return E_NO_PERMISSION;
      }
      if !caller.userAllowed {
        return E_USER_IDENTITY_ERROR;
      }
      ListCanStart(fs.reliable, a.disk, userId, TypeOf(wallpaperType));
      code := WriteAllTemps(items, wallpaperType);
      ghost var d1 := fs.disk;
      OnlyTempsRefused(setup, a, d1, userId, items);
      if code != NO_ERROR {
        return;
      }
      ValidType(a.disk, d1, wallpaperType, items);
      var t := TypeOf(wallpaperType);
      SureAfterTemps(fs.reliable, a.disk, d1, userId, t, items);
      var cleared := fs.DeleteDir(GetWallpaperDir(userId, t), false);
      DeletedDirs(d1, fs.disk, GetWallpaperDir(userId, t), false, cleared);
      FewerDirsReady(a.disk, fs.disk);
      if SlotMissing(a.disk, userId, t) { StillMissing(a.disk, d1, userId, t); }
      code := UpdateWallpaperData(items, userId, t, a, d1, wallpaperType, cleared);
      if code != NO_ERROR {
        return;
      }
      SetAllHas(setup, a, Snap(), userId, t, items);
      var _, _ := GetPictureFileName(userId, t);
    }

    // ----- accounts -----

    method ClearWallpaperLocked(userId: int, t: WallpaperType)
      requires Snap().Has(userId, t) ==> EntryOk(Snap().At(userId, t), Slot(userId, t))
      modifies this
      ensures Snap() == old(Snap()).Without(userId, t)
    {
      var found, data := Find(userId, t);
      if !found {
        assert Snap().entries == Snap().Without(userId, t).entries;
        return;
      }
      if data.pictures.wallpaperFile != Empty || data.liveWallpaperFile != Empty {
        JoinedErase(systemWallpaperMap, lockWallpaperMap, userId);
        if t.System? {
          systemWallpaperMap := systemWallpaperMap - {userId};
        } else {
          lockWallpaperMap := lockWallpaperMap - {userId};
        }
      }
    }

    method OnRemovedUser(userId: int)
      requires Valid()
      modifies this, fs
      ensures IsTree(fs.disk)
      ensures RemoveOutcome(old(Snap()), Snap(), userId)
      ensures fs.reliable && userId >= 0 && UserDir(userId) in old(fs.disk.dirs) ==> UserGone(fs.disk, userId)
    {
      hide Joined, DirDeleted, RemoveOutcome, UserGone;
      ghost var a := Snap();
      if userId < 0 {
        assert RemoveOutcome(a, a, userId) by { NegativeRemoved(a, userId); }
        return;
      }
      ClearWallpaperLocked(userId, System);
      ClearWallpaperLocked(userId, Lockscreen);
      var deleted := fs.DeleteDir(UserDir(userId), true);
      RemovedByParts(a, fs.disk, userId, deleted);
    }

    /** The types are read into local copies only; the one lasting effect is that missing entries of
        the active user are filled in. */
    method LoadWallpaperState(active: int) returns (types: Types)
      modifies this
      ensures Snap() == old(Snap()) || Snap() == FillBoth(setup, old(Snap()), active)
      ensures types.Types? ==>
        types == Parse(setup.template, FirstBytes(Content(fs.disk, StatePath(active)), 254))
      ensures fs.reliable ==>
                var text := FirstBytes(Content(fs.disk, StatePath(active)), 254);
                if text == [] || text[0] == 0 as char then types == NoTypes && Snap() == old(Snap())
                else types == Parse(setup.template, text) && Snap() == FillBoth(setup, old(Snap()), active)
    {
      if StatePath(active) !in fs.disk.files {
        return NoTypes;
      }
      if !fs.reliable {
        if * {
          return NoTypes;
        }
      }
      var text := FirstBytes(fs.disk.files[StatePath(active)], READ_LIMIT);
      if text == [] || text[0] == 0 as char {
        return NoTypes;
      }
      var hasSystem, systemData := GetWallpaperSafeLocked(active, System);
      var hasLock, lockScreenData := GetWallpaperSafeLocked(active, Lockscreen);
      types := Parse(setup.template, text);
    }

    method OnSwitchedUser(userId: int, active: int)
      requires Valid()
      modifies this, fs
      ensures IsTree(fs.disk)
      ensures SwitchOutcome(setup, old(Snap()), Snap(), userId, active)
      ensures fs.disk.files == old(fs.disk.files)
      ensures fs.reliable ==> SureSwitch(old(Snap()), Snap(), userId, active)
    {
      hide Tidied, PlaceFor, UserDirs, Joined, DirsMade, SwitchOutcome, IsTree, FillBoth, Fill, ScaffoldOnly,
        Rebuild, SureSwitch, Switching;
      ghost var a := Snap();
      assert IsTree(fs.disk) by { WellFormedTree(a); }
      if userId < 0 || userId == currentUserId {
        NoSwitch(setup, a, userId, active);
        return;
      }
      currentUserId := userId;
      if !Exists(fs.disk, UserDir(userId)) {
        var made := InitUserDir(userId);
        MadeIsTidied(a.disk, fs.disk, userId, made);
        DirsAreScaffold(a.disk, fs.disk, userId, made);
        UpdataWallpaperMap(userId, System);
        UpdataWallpaperMap(userId, Lockscreen);
      }
      ghost var m := Snap();
      SwitchStarted(setup, a, m, userId, active);
      var types := LoadWallpaperState(active);
      ghost var n := Snap();
      SwitchFills(setup, a, m, userId, active, active);
      var hasSystem, systemData := GetWallpaperSafeLocked(userId, System);
      var hasLock, lockData := GetWallpaperSafeLocked(userId, Lockscreen);
      ghost var b := Snap();
      assert b == FillBoth(setup, n, userId) by { FillBothIs(setup, n, userId); }
      SwitchFills(setup, a, n, userId, active, userId);
      SwitchFinished(setup, a, n, userId, active);
      if fs.reliable { SwitchHas(setup, a, m, n, userId, active); }
      FillBothFacts(setup, n, userId);
      var _, _ := GetPictureFileName(userId, System);
      var _, _ := GetPictureFileName(userId, Lockscreen);
    }

    method ClearRedundantFile(userId: int, t: WallpaperType)
      requires IsTree(fs.disk)
      modifies fs
      ensures IsTree(fs.disk)
      ensures ScaffoldOnly(old(fs.disk), fs.disk)
      ensures forall q :: q != OriginalPath(userId, t) ==> SameAt(old(fs.disk), fs.disk, q)
      ensures !Exists(fs.disk, OriginalPath(userId, t)) || fs.disk == old(fs.disk)
      ensures fs.reliable && OriginalPath(userId, t) !in old(fs.disk.dirs) ==> !Exists(fs.disk, OriginalPath(userId, t))
    {
      var _ := fs.DeleteFile(OriginalPath(userId, t));
      RemovedIsScaffold(old(fs.disk), fs.disk, userId, t);
    }

    /** Start-up, first part. */
    method InitData(active: int)
      requires IsTree(fs.disk)
      modifies this, fs
      ensures IsTree(fs.disk)
      ensures RestartOutcome(setup, old(Snap()), Snap(), active)
      ensures fs.reliable ==> SureRestart(old(Snap()), Snap(), active)
      ensures fs.reliable && CanBeLaid(old(fs.disk), 0) ==> fs.disk == LaidOut(old(fs.disk), 0)
    {
      hide RestartOutcome, Current, Laid, LaidOut, CanBeLaid, PlaceFor, SameAt, Joined, DirsMade, Exists, IsTree,
        FillBoth, ScaffoldOnly, Rebuild;
      ghost var d0 := fs.disk;
      wallpaperId, issued, currentUserId := -1, 0, 0;
      systemWallpaperMap, lockWallpaperMap := map[], map[];
      assert Snap().entries == imap[] by { JoinedEmpty(); }
      if CanBeLaid(d0, 0) { HasPlace(d0, 0); }
      var made := InitUserDir(0);
      ghost var d1 := fs.disk;
      DirsAreScaffold(d0, d1, 0, made);
      LaidByParts(d0, d1, 0, made);
      UpdataWallpaperMap(0, System);
      UpdataWallpaperMap(0, Lockscreen);
      ghost var m := Snap();
      var types := LoadWallpaperState(active);
      FillBothFacts(setup, m, active);
      ghost var n := Snap();
      ClearRedundantFile(0, System);
      ghost var d2 := fs.disk;
      if CanBeLaid(d0, 0) { OriginalsDiffer(d1, d2, 0); }
      ClearRedundantFile(0, Lockscreen);
      TidyByParts(d0, d1, d2, fs.disk, 0, made);
      if fs.reliable && CanBeLaid(d0, 0) { LaidOutByParts(d0, d1, d2, fs.disk, 0); }
      ScaffoldTransitive(d1, d2, fs.disk);
      ScaffoldTransitive(d0, d1, fs.disk);
      ScaffoldRebuild(setup, d1, fs.disk);
      RestartByParts(setup, old(Snap()), m, n, fs.disk, active);
      if fs.reliable {
        RestartHas(setup, old(Snap()), m, n, fs.disk, active);
      }
    }

    /** Start-up, second part: the accounts the system reports. */
    method InitUsersOnBoot(users: seq<int>)
      requires IsTree(fs.disk)
      modifies this, fs
      ensures IsTree(fs.disk)
      ensures BootOutcome(setup, old(Snap()), Snap(), users)
      ensures fs.reliable ==> forall u :: u in users && CanBeLaid(old(fs.disk), u) ==> Laid(fs.disk, u)
      ensures fs.reliable && (forall u :: u in users ==> CanBeLaid(old(fs.disk), u)) ==>
                fs.disk == AllLaidOut(old(fs.disk), users)
    {
      hide Laid, LaidOut, AllLaidOut, CanBeLaid, PlaceFor, SameAt, Exists, Tidied, Joined, DirsMade, IsTree,
        ScaffoldOnly, Rebuild,
        BootOutcome;
      ghost var sure := fs.reliable && forall u :: u in users ==> CanBeLaid(fs.disk, u);
      assert AllLaidOut(fs.disk, []) == fs.disk by { NoneLaidOut(fs.disk); }
      SameIsTidied(fs.disk);
      BootNone(setup, Snap());
      for i := 0 to |users|
        invariant IsTree(fs.disk)
        invariant BootOutcome(setup, old(Snap()), Snap(), users[..i])
        invariant Tidied(old(fs.disk), fs.disk)
        invariant fs.reliable ==> forall u :: u in users[..i] && CanBeLaid(old(fs.disk), u) ==> Laid(fs.disk, u)
        invariant sure ==> fs.disk == AllLaidOut(old(fs.disk), users[..i])
      {
        ghost var before := Snap();
        var userId := users[i];
        TidiedKeeps(old(fs.disk), before.disk, userId);
        if CanBeLaid(before.disk, userId) { HasPlace(before.disk, userId); }
        var made := InitUserDir(userId);
        ghost var d1 := fs.disk;
        DirsAreScaffold(before.disk, d1, userId, made);
        LaidByParts(before.disk, d1, userId, made);
        UpdataWallpaperMap(userId, System);
        UpdataWallpaperMap(userId, Lockscreen);
        ClearRedundantFile(userId, System);
        ghost var d2 := fs.disk;
        if CanBeLaid(before.disk, userId) { OriginalsDiffer(d1, d2, userId); }
        ClearRedundantFile(userId, Lockscreen);
        ScaffoldTransitive(d1, d2, fs.disk);
        ScaffoldTransitive(before.disk, d1, fs.disk);
        BootStep(setup, old(Snap()), before, d1, fs.disk, users, i);
        TidyByParts(before.disk, d1, d2, fs.disk, userId, made);
        OneMoreLaidOut(old(fs.disk), users, i);
        if sure { LaidOutByParts(before.disk, d1, d2, fs.disk, userId); }
        TidiedTransitive(old(fs.disk), before.disk, fs.disk);
        TidiedKeepsAll(before.disk, fs.disk);
      }
      assert users[..|users|] == users;
    }

    // ----- lookups -----

    method GetFileNameFromMap(userId: int, t: WallpaperType) returns (ok: bool, filePathName: Path)
      ensures filePathName == if Snap().Has(userId, t) then ChosenFile(Snap().At(userId, t)) else Empty
      ensures ok <==> filePathName != Empty
    {
      var found, data := Find(userId, t);
      if !found {
        return false, Empty;
      }
      match data.resourceType {
        case RES_PICTURE => filePathName := data.pictures.wallpaperFile;
        case RES_VIDEO => filePathName := data.liveWallpaperFile;
        case RES_DEFAULT => filePathName := data.pictures.wallpaperFile;
        case RES_PACKAGE => filePathName := data.customPackageUri;
      }
      ok := filePathName != Empty;
    }

    method GetWallpaperDataPath(userId: int, t: WallpaperType, foldState: int, rotateState: int)
      returns (ok: bool, filePathName: Path)
      requires IsTree(fs.disk)
      modifies this, fs
      ensures IsTree(fs.disk)
      ensures LookupOutcome(setup, old(Snap()), Snap(), userId, t)
      ensures fs.reliable ==> SureRead(setup, old(Snap()), Snap(), userId, t)
      ensures filePathName ==
        if Snap().Has(userId, t) then GetWallpaperPath(foldState, rotateState, Snap().At(userId, t).pictures) else Empty
      ensures ok <==> filePathName != Empty
    {
      var found, data := Find(userId, t);
      if !found {
        OnInitUser(userId);
        found, data := Find(userId, t);
        if !found {
          return false, Empty;
        }
      }
      filePathName := GetWallpaperPath(foldState, rotateState, data.pictures);
      ok := filePathName != Empty;
    }

    // ----- any request -----

    /** Whatever is asked and whatever fails, the service takes a step of ServiceRuns and stays valid; and on
        a reliable system of SureStep. */
    method Handle(q: Request) returns (code: ErrorCode)
      requires Valid()
      modifies this, fs
      ensures Step(setup, old(Snap()), q, code, Snap()) && Valid()
      ensures fs.reliable ==> SureStep(setup, old(Snap()), q, code, Snap())
    {
      hide RequestSure, ListSure, SlotMissing, MissingOutcome, CustomMissing, SetAllMissing, Fill, SetMissingAnswer,
        SetAllSure, SetAnswer, ResetPrecheck, CustomAnswer, SureRead,
        SureSetUp, SureRestart, SureSwitch, CanSetUp, SetAllAnswer, HoldsOnly, UserGone, InitDone, Laid, CanBeLaid,
        PlaceFor,
        Valid, WellFormed, IsTree, Joined, SetOutcome, CustomOutcome, ResetOutcome, SetAllOutcome, InitOutcome,
        RemoveOutcome, SwitchOutcome, RestartOutcome, BootOutcome;
      ValidIsTree();
      code := NO_ERROR;
      match q {
        case Set(u, allowed, content, t, length, res) => code := SetWallpaper(u, allowed, content, t, length, res);
        case Custom(u, caller, content, t, length) => code := SetCustomWallpaper(u, caller, content, t, length);
        case Reset(u, caller, t) =>
          if SlotMissing(fs.disk, u, TypeOf(t)) { StillMissing(fs.disk, fs.disk, u, TypeOf(t)); }
          code := ResetWallpaper(u, caller, t);
        case SetAll(u, caller, items, fdCount, t) => code := SetAllWallpapers(u, caller, items, fdCount, t);
        case Lookup(u, t, ReadPicture) => var ok, path := GetPictureFileName(u, t);
        case Lookup(u, t, ReadScreen(fold, rotate)) => var ok, path := GetWallpaperDataPath(u, t, fold, rotate);
        case InitUser(u) => OnInitUser(u);
        case RemoveUser(u) => OnRemovedUser(u);
        case SwitchUser(u, active) => OnSwitchedUser(u, active);
        case Restart(active) => InitData(active);
        case Boot(users) => InitUsersOnBoot(users);
      }
      StepIsValid(setup, old(Snap()), q, code);
      if ForSlot(q) && Precheck(q) != NO_ERROR { RefusedUpFront(setup, old(Snap()), q, code, Snap()); }
    }

    lemma ValidIsTree()
      requires Valid()
      ensures WellFormed(Snap()) && IsTree(fs.disk)
    {
    }

    lemma StepIsValid(setup: Setup, a: State, q: Request, code: ErrorCode)
      requires WellFormed(a) && Step(setup, a, q, code, Snap())
      ensures Valid()
    {
      StepKeepsWellFormed(setup, a, q, code, Snap());
    }
  }
}
