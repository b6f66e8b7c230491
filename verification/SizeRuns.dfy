/** How large a stored wallpaper can be. The limits are checked against the length a request names; that no file
    outgrows them takes that nothing longer was left over in a temporary file. */
module SizeRuns {
  import opened Paths
  import opened FileDeal
  import opened StateFile
  import opened ServiceState
  import opened Places
  import opened EntryFacts
  import opened ServiceRuns
  import opened Isolation
  import opened Readiness
  import opened DiskRuns
  import opened TempRuns
  import StateFileRuns

  /** For an allowed user, a known type and a readable source, a set answers success on a system whose
      directories are there exactly for lengths up to 100 MiB for a video and 50 MiB for anything else. */
  lemma AcceptedLengths(content: Bytes, wallpaperType: int, length: int, res: ResourceType)
    requires content != [] && (wallpaperType == 0 || wallpaperType == 1)
    ensures SetAnswer(true, content, wallpaperType, length, res) == NO_ERROR <==>
            0 < length <= if res == RES_VIDEO then 104857600 else 52428800
    ensures length <= 0 <==> SetAnswer(true, content, wallpaperType, length, res) == E_PARAMETERS_INVALID
    ensures length > (if res == RES_VIDEO then 104857600 else 52428800) <==>
            SetAnswer(true, content, wallpaperType, length, res) == E_PICTURE_OVERSIZED
  {
  }

  /** A list for a known type is taken item by item up to the same limit of a picture. */
  lemma {:induction false} AcceptedLists(items: seq<Item>, wallpaperType: int)
    ensures ListAnswer(items, wallpaperType) == NO_ERROR <==>
            forall i :: 0 <= i < |items| ==>
              (wallpaperType == 0 || wallpaperType == 1) && 0 < items[i].length <= 52428800 && items[i].content != []
  {
    if items != [] {
      var n := |items| - 1;
      AcceptedLists(items[..n], wallpaperType);
      assert forall i :: 0 <= i < n ==> items[..n][i] == items[i];
    }
  }

  /** No picture and no package of the slot is larger than 50 MiB and no video than 100 MiB. */
  ghost predicate SlotFits(d: Disk, x: Slot) {
    |Content(d, LivePath(x.userId, x.wallpaperType))| <= 104857600 &&
    |Content(d, PackagePath(x.userId, x.wallpaperType))| <= 52428800 &&
    forall f, r :: |Content(d, PicturePath(x.userId, x.wallpaperType, f, r))| <= 52428800
  }

  ghost predicate AllFit(d: Disk) {
    forall x: Slot :: SlotFits(d, x)
  }

  /** What is below the directory of the slot was there before. */
  ghost predicate NothingNew(a: Disk, b: Disk, x: Slot) {
    forall p :: Below(p, GetWallpaperDir(x.userId, x.wallpaperType)) ==> p !in b.files || SameAt(a, b, p)
  }

  lemma NothingNewFits(a: Disk, b: Disk, x: Slot)
    requires NothingNew(a, b, x) && SlotFits(a, x)
    ensures SlotFits(b, x)
  {
    var (u, t) := (x.userId, x.wallpaperType);
    Layout(u, t);
    forall f, r ensures |Content(b, PicturePath(u, t, f, r))| <= 52428800 {
      assert |Content(a, PicturePath(u, t, f, r))| <= 52428800;
    }
  }

  lemma BufferedLength(content: Bytes, length: nat)
    ensures |Buffered(content, length)| == length
  {
  }

  lemma SetFits(setup: Setup, a: State, b: State, z: Slot, content: Bytes, length: int, res: ResourceType)
    requires 0 < length <= if res == RES_VIDEO then 104857600 else 52428800
    requires SetDone(setup, a, b, z.userId, z.wallpaperType, res,
                     Overwrite(Content(a.disk, TMP), Buffered(content, length)))
    requires CleanTemps(a.disk) && SlotFits(a.disk, z)
    ensures SlotFits(b.disk, z)
  {
    hide Rebuild, Buffered, NewText, SlotFits;
    BufferedLength(content, length);
    NothingInTemp(a.disk);
    var target, bytes := TargetPath(z.userId, z.wallpaperType, res), Buffered(content, length);
    OverwriteExact([], bytes);
    assert forall p :: p != target && Below(p, GetWallpaperDir(z.userId, z.wallpaperType)) ==> !Exists(b.disk, p);
    OneFileFits(b.disk, z, res, bytes);
  }

  lemma NothingInTemp(d: Disk)
    requires CleanTemps(d)
    ensures Content(d, TMP) == []
  {
    assert IsTemp(TMP);
  }

  lemma OneFileFits(d: Disk, z: Slot, res: ResourceType, bytes: Bytes)
    requires |bytes| <= if res == RES_VIDEO then 104857600 else 52428800
    requires var target := TargetPath(z.userId, z.wallpaperType, res);
             Content(d, target) == bytes &&
             forall p :: p != target && Below(p, GetWallpaperDir(z.userId, z.wallpaperType)) ==> !Exists(d, p)
    ensures SlotFits(d, z)
  {
    Layout(z.userId, z.wallpaperType);
  }

  lemma ResetFits(setup: Setup, a: State, b: State, z: Slot)
    requires ResetDone(setup, a, b, z.userId, z.wallpaperType) && SlotFits(a.disk, z)
    ensures SlotFits(b.disk, z)
  {
    hide Rebuild, SlotFits;
    NothingNewFits(a.disk, b.disk, z);
  }

  lemma ListFits(setup: Setup, a: State, b: State, z: Slot, items: seq<Item>, wallpaperType: int)
    requires SetAllDone(setup, a, b, z.userId, z.wallpaperType, items) && ListAnswer(items, wallpaperType) == NO_ERROR
    requires CleanTemps(a.disk) && SlotFits(a.disk, z)
    ensures SlotFits(b.disk, z)
  {
    hide PicturesSet, DistinctScreens, ListAnswer, IsTempOf;
    var (u, t) := (z.userId, z.wallpaperType);
    AcceptedLists(items, wallpaperType);
    Layout(u, t);
    forall f, r ensures |Content(b.disk, PicturePath(u, t, f, r))| <= 52428800 {
      var p := PicturePath(u, t, f, r);
      if IsTargetOf(items, u, t, p) {
        var i :| 0 <= i < |items| && items[i].Target(u, t) == p;
        assert IsTemp(items[i].TempFile());
        OverwriteExact(Content(a.disk, items[i].TempFile()), items[i].Buffer());
        BufferedLength(items[i].content, items[i].length);
      } else {
        assert |Content(a.disk, p)| <= 52428800;
      }
    }
  }

  /** Writing one temporary file over another does not make it longer than the longest of them. */
  lemma {:induction false} WritesFit(files: map<Path, Bytes>, items: seq<Item>, p: Path)
    requires forall i :: 0 <= i < |items| ==> |items[i].Buffer()| <= 52428800
    requires p in Writes(files, items) && (p in files ==> |files[p]| <= 52428800)
    ensures |Writes(files, items)[p]| <= 52428800
  {
    hide Overwrite;
    if items != [] {
      var n := |items| - 1;
      if p in Writes(files, items[..n]) { WritesFit(files, items[..n], p); }
      OverwriteExact(if p in Writes(files, items[..n]) then Writes(files, items[..n])[p] else [], items[n].Buffer());
    }
  }

  lemma RepeatFits(a: Disk, b: Disk, z: Slot, items: seq<Item>, wallpaperType: int, i: nat)
    requires PicturesHold(a, b, z.userId, z.wallpaperType, items, i) && ListAnswer(items, wallpaperType) == NO_ERROR
    requires PicturesLeft(b, z.userId, z.wallpaperType, items[..i]) && CleanTemps(a)
    ensures SlotFits(b, z)
  {
    hide ListAnswer;
    var (u, t) := (z.userId, z.wallpaperType);
    AcceptedLists(items, wallpaperType);
    Layout(u, t);
    forall j | 0 <= j < |items| ensures |items[j].Buffer()| <= 52428800 {
      BufferedLength(items[j].content, items[j].length);
    }
    forall f, r ensures |Content(b, PicturePath(u, t, f, r))| <= 52428800 {
      var p := PicturePath(u, t, f, r);
      if p in b.files {
        var j :| 0 <= j < |items[..i]| && items[..i][j].Target(u, t) == p;
        assert IsTemp(items[j].TempFile());
        WritesFit(a.files, items, items[j].TempFile());
      }
    }
    assert !IsTargetOf(items[..i], u, t, LivePath(u, t)) && !IsTargetOf(items[..i], u, t, PackagePath(u, t));
  }

  lemma RefusedAddsNothing(setup: Setup, a: State, b: State, z: Slot)
    requires Refused(setup, a, b, z.userId)
    ensures NothingNew(a.disk, b.disk, z)
  {
    hide Rebuild, Grew;
    Layout(z.userId, z.wallpaperType);
  }

  lemma SetAllFits(setup: Setup, a: State, q: Request, code: ErrorCode, b: State)
    requires q.SetAll? && SureStep(setup, a, q, code, b) && ReadyFor(a.disk, q)
    requires CleanTemps(a.disk) && SlotFits(a.disk, SlotOf(q))
    ensures SlotFits(b.disk, SlotOf(q))
  {
    hide Refused, Spoiled, SetAllDone, ListAnswer, NoTempLeft, OnlyTemps, PicturesLeft, TempsWritten,
      HoldsOnly, DistinctScreens, Listed, CleanTemps, IsTree, RequestSure, IsTempOf, PicturesHold, SureStep, SlotFits,
      NothingNew;
    SureList(setup, a, q, code, b);
    var z := SlotOf(q);
    if SetAllPrecheck(q.caller, q.items, q.fdCount) == NO_ERROR {
      if code == NO_ERROR {
        ListFits(setup, a, b, z, q.items, q.wallpaperType);
      } else if ListAnswer(q.items, q.wallpaperType) != NO_ERROR {
        RefusedAddsNothing(setup, a, b, z);
        NothingNewFits(a.disk, b.disk, z);
      } else {
        var i: nat :| RepeatsAt(q.items, i) && PicturesLeft(b.disk, q.userId, z.wallpaperType, q.items[..i]) &&
                      PicturesHold(a.disk, b.disk, q.userId, z.wallpaperType, q.items, i);
        RepeatFits(a.disk, b.disk, z, q.items, q.wallpaperType, i);
      }
    }
  }

  lemma CustomFits(setup: Setup, a: State, q: Request, code: ErrorCode, b: State)
    requires q.Custom? && SureStep(setup, a, q, code, b) && ReadyFor(a.disk, q)
    requires CleanTemps(a.disk) && SlotFits(a.disk, SlotOf(q))
    ensures SlotFits(b.disk, SlotOf(q))
  {
    hide Refused, SetOutcome, WithPackage, NewText, FillBoth, Fill, Rebuild, StateSaved, CleanTemps, IsTree,
      RequestSure, SlotFits;
    var u, t := q.userId, TypeOf(q.wallpaperType);
    FillFacts(setup, a, u, t);
    if CustomPrecheck(q.caller, q.wallpaperType) == NO_ERROR && q.caller.sceneBoard {
      StateFileRuns.RefusedIssuesNone(setup, a, b, u);
      var m, n :| StateSaved(setup, a, m, u, t, RES_PACKAGE) && IsTree(m.disk) &&
                  SetOutcome(setup, m, n, u, q.caller.userAllowed, q.content, q.wallpaperType, q.length, RES_PACKAGE,
                             code) &&
                  b == WithPackage(setup, a, n, u, t);
      PackageFacts(setup, a, n, u, t);
      SavedFits(setup, a, m, Slot(u, t));
      InnerFits(setup, m, n, q, code);
    }
  }

  lemma SavedFits(setup: Setup, a: State, m: State, z: Slot)
    requires StateSaved(setup, a, m, z.userId, z.wallpaperType, RES_PACKAGE)
    requires SlotFits(a.disk, z) && CleanTemps(a.disk)
    ensures SlotFits(m.disk, z) && CleanTemps(m.disk)
  {
    hide NewText, FillBoth, CleanTemps, SlotFits;
    assert forall p :: p != StatePath(z.userId) ==> SameAt(a.disk, m.disk, p);
    Layout(z.userId, z.wallpaperType);
    StateIsNoTemp(a.disk, m.disk, z.userId);
    NothingNewFits(a.disk, m.disk, z);
  }

  lemma InnerFits(setup: Setup, m: State, n: State, q: Request, code: ErrorCode)
    requires q.Custom? && code == SetAnswer(q.caller.userAllowed, q.content, q.wallpaperType, q.length, RES_PACKAGE)
    requires SetOutcome(setup, m, n, q.userId, q.caller.userAllowed, q.content, q.wallpaperType, q.length,
                        RES_PACKAGE, code)
    requires CleanTemps(m.disk) && SlotFits(m.disk, SlotOf(q))
    ensures SlotFits(n.disk, SlotOf(q))
  {
    hide SetDone, Refused, Spoiled, Wiped, CleanTemps, SlotFits;
    if code == NO_ERROR {
      SetFits(setup, m, n, SlotOf(q), q.content, q.length, RES_PACKAGE);
    }
  }

  lemma ReadyFits(setup: Setup, a: State, q: Request, code: ErrorCode, b: State)
    requires SureStep(setup, a, q, code, b) && ReadyFor(a.disk, q)
    requires CleanTemps(a.disk) && SlotFits(a.disk, SlotOf(q))
    ensures SlotFits(b.disk, SlotOf(q))
  {
    hide SetDone, ResetDone, SetAllDone, CustomOutcome, Refused, Spoiled, Wiped, CleanTemps, IsTree, TempsReady,
      SetAllSure, SlotMissing, MissingOutcome, SlotFits;
    ReadyForBoth(setup, a, q);
    match q {
      case Set(_, _, content, _, length, res) =>
        if code == NO_ERROR { SetFits(setup, a, b, SlotOf(q), content, length, res); }
      case Custom(_, _, _, _, _) => CustomFits(setup, a, q, code, b);
      case Reset(_, _, _) => if code == NO_ERROR { ResetFits(setup, a, b, SlotOf(q)); }
      case SetAll(_, _, _, _, _) => SetAllFits(setup, a, q, code, b);
    }
  }

  /** Nothing is below a directory that is missing. */
  lemma MissingHoldsNothing(d: Disk, x: Slot)
    requires IsTree(d) && GetWallpaperDir(x.userId, x.wallpaperType) !in d.dirs
    ensures SlotFits(d, x)
  {
  }

  /** Other slots, and slots whose user was set up afresh. */
  lemma OtherFits(setup: Setup, a: State, q: Request, code: ErrorCode, b: State, x: Slot)
    requires ForSlot(q) && SureStep(setup, a, q, code, b) && Orderly(a.disk) && x != SlotOf(q)
    requires SlotFits(a.disk, x)
    ensures SlotFits(b.disk, x)
  {
    hide SureStep, Step, OthersKept, SlotFits, Orderly;
    SureIsStep(setup, a, q, code, b);
    if CanWipe(a, q) {
      WipedFits(setup, a, q, code, b, x);
    } else {
      SlotRequestKeepsOthers(setup, a, q, code, b);
      OthersNothingNew(setup, a, b, SlotOf(q), x);
      NothingNewFits(a.disk, b.disk, x);
    }
  }

  lemma OthersNothingNew(setup: Setup, a: State, b: State, z: Slot, x: Slot)
    requires OthersKept(setup, a, b, z) && x != z
    ensures NothingNew(a.disk, b.disk, x)
  {
    hide IsRebuilt;
  }

  lemma WipedFits(setup: Setup, a: State, q: Request, code: ErrorCode, b: State, x: Slot)
    requires q.Set? && SureStep(setup, a, q, code, b) && Orderly(a.disk) && SlotFits(a.disk, x)
    requires x != SlotOf(q) || GetWallpaperDir(q.userId, TypeOf(q.wallpaperType)) !in a.disk.dirs
    ensures SlotFits(b.disk, x)
  {
    hide SlotFits, SetDone, RequestSure, SlotMissing, Refused, Spoiled, Wiped, Orderly, IsTree, InitDone;
    var u, t := q.userId, TypeOf(q.wallpaperType);
    ReadyOrMissing(a.disk, u, t);
    if GetWallpaperDir(u, t) in a.disk.dirs {
      ReadyForBoth(setup, a, q);
      if code == NO_ERROR {
        var bytes := Overwrite(Content(a.disk, TMP), Buffered(q.content, q.length));
        SetDoneKeepsOthers(setup, a, b, SlotOf(q), q.res, bytes);
        OthersNothingNew(setup, a, b, SlotOf(q), x);
        NothingNewFits(a.disk, b.disk, x);
      }
    } else if Wiped(setup, a, b, u) && InitDone(setup, b, u) {
      WipedOutside(setup, a, b, u);
      EmptiedFits(setup, a, b, u, x);
    } else if AnswerTo(q) == NO_ERROR {
      TempOnlyFits(a.disk, b.disk, x);
    }
  }

  lemma TempOnlyFits(a: Disk, b: Disk, x: Slot)
    requires SlotFits(a, x) && forall p :: p != TMP ==> SameAt(a, b, p)
    ensures SlotFits(b, x)
  {
    Layout(x.userId, x.wallpaperType);
    hide SlotFits;
    NothingNewFits(a, b, x);
  }

  lemma EmptiedFits(setup: Setup, a: State, b: State, u: int, x: Slot)
    requires forall p :: !Inside(p, UserDir(u)) && !IsTemp(p) ==> SameAt(a.disk, b.disk, p)
    requires InitDone(setup, b, u) && SlotFits(a.disk, x)
    ensures SlotFits(b.disk, x)
  {
    hide Rebuild, SlotFits;
    Layout(x.userId, x.wallpaperType);
    forall p | Below(p, GetWallpaperDir(x.userId, x.wallpaperType))
      ensures p !in b.disk.files || SameAt(a.disk, b.disk, p)
    {
      if Inside(p, UserDir(u)) { DistinctUsers(p, u, x.userId); }
    }
    NothingNewFits(a.disk, b.disk, x);
  }

  lemma EventFits(setup: Setup, a: State, q: Request, code: ErrorCode, b: State, x: Slot)
    requires SureStep(setup, a, q, code, b) && !ForSlot(q) && Orderly(a.disk) && SlotFits(a.disk, x)
    ensures SlotFits(b.disk, x)
  {
    hide InitDone, SlotFits, IsRebuilt, IsTree, BothPresent, ScaffoldOnly, SureRestart, UserGone;
    match q
    case Lookup(u, t, _) =>
      if b != a {
        assert CanSetUp(a.disk, u);
        EmptiedFits(setup, a, b, u, x);
      }
    case InitUser(u) =>
      if u >= 0 {
        assert CanSetUp(a.disk, u);
        EmptiedFits(setup, a, b, u, x);
      }
    case RemoveUser(u) => if u >= 0 { NothingNewFits(a.disk, b.disk, x); }
    case SwitchUser(u, active) => NothingNewFits(a.disk, b.disk, x);
    case Restart(_) => ScaffoldFits(a.disk, b.disk, x);
    case Boot(_) => ScaffoldFits(a.disk, b.disk, x);
  }

  lemma ScaffoldFits(a: Disk, b: Disk, x: Slot)
    requires ScaffoldOnly(a, b) && SlotFits(a, x)
    ensures SlotFits(b, x)
  {
    var (u, t) := (x.userId, x.wallpaperType);
    assert SameAt(a, b, LivePath(u, t)) && SameAt(a, b, PackagePath(u, t));
    forall f, r ensures |Content(b, PicturePath(u, t, f, r))| <= 52428800 {
      assert SameAt(a, b, PicturePath(u, t, f, r)) && |Content(a, PicturePath(u, t, f, r))| <= 52428800;
    }
  }

  lemma StepKeepsSizes(setup: Setup, a: State, q: Request, code: ErrorCode, b: State)
    requires SureStep(setup, a, q, code, b) && Orderly(a.disk) && CleanTemps(a.disk) && AllFit(a.disk)
    ensures AllFit(b.disk)
  {
    hide SureStep, Step, Orderly, CleanTemps, SlotFits, RequestSure, SlotMissing, MissingEffect;
    forall x: Slot ensures SlotFits(b.disk, x) {
      assert SlotFits(a.disk, x);
      if !ForSlot(q) {
        EventFits(setup, a, q, code, b, x);
      } else if x != SlotOf(q) {
        OtherFits(setup, a, q, code, b, x);
      } else {
        ReadyOrMissing(a.disk, q.userId, TypeOf(q.wallpaperType));
        if GetWallpaperDir(q.userId, TypeOf(q.wallpaperType)) in a.disk.dirs {
          ReadyFits(setup, a, q, code, b);
        } else {
          MissingFits(setup, a, q, code, b);
        }
      }
    }
  }

  lemma MissingFits(setup: Setup, a: State, q: Request, code: ErrorCode, b: State)
    requires ForSlot(q) && SureStep(setup, a, q, code, b) && Orderly(a.disk) && SlotFits(a.disk, SlotOf(q))
    requires GetWallpaperDir(q.userId, TypeOf(q.wallpaperType)) !in a.disk.dirs
    ensures SlotFits(b.disk, SlotOf(q))
  {
    hide SureStep, SlotFits, Step, Orderly, KeepsDirs;
    SureIsStep(setup, a, q, code, b);
    if CanWipe(a, q) {
      WipedFits(setup, a, q, code, b, SlotOf(q));
    } else {
      StepKeepsDirs(setup, a, q, code, b);
      StaysMissing(a.disk, b.disk, SlotOf(q));
      StepIsTree(setup, a, q, code, b);
      MissingHoldsNothing(b.disk, SlotOf(q));
    }
  }

  lemma StepIsTree(setup: Setup, a: State, q: Request, code: ErrorCode, b: State)
    requires Step(setup, a, q, code, b)
    ensures IsTree(b.disk)
  {
    hide IsTree;
  }

  lemma StaysMissing(a: Disk, b: Disk, z: Slot)
    requires KeepsDirs(a, b, z) && GetWallpaperDir(z.userId, z.wallpaperType) !in a.dirs
    ensures GetWallpaperDir(z.userId, z.wallpaperType) !in b.dirs
  {
    NotBelowSlot(z.userId, z.wallpaperType, z);
    assert SameAt(a, b, GetWallpaperDir(z.userId, z.wallpaperType));
  }

  /** On a reliable system that starts in order and without leftover temporary files, no run of requests and
      account events, none of which leaves temporary files, ever stores a picture or a package of more than
      50 MiB or a video of more than 100 MiB. */
  lemma {:induction false} CleanRunKeepsSizes(setup: Setup, start: State, events: seq<Event>)
    requires SureRun(setup, start, events) && NoneLeaves(start, events)
    requires Orderly(start.disk) && CleanTemps(start.disk) && AllFit(start.disk)
    ensures AllFit(Final(start, events).disk)
    decreases |events|
  {
    hide SureStep, LeavesTemps, CleanTemps, Orderly, AllFit, Step;
    if events != [] {
      var e := events[0];
      CleanStep(setup, start, e.request, e.code, e.after);
      StepKeepsSizes(setup, start, e.request, e.code, e.after);
      CleanRunKeepsSizes(setup, e.after, events[1..]);
    }
  }
}
