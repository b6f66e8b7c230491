/** Leftover temporary files on a reliable system: which requests leave some, that runs without such requests
    show every screen exactly what was set, and how one user's tail gets into another user's picture. */
module TempRuns {
  import opened Paths
  import opened FileDeal
  import opened StateFile
  import opened ServiceState
  import opened Places
  import opened EntryFacts
  import opened ListSteps
  import opened ServiceRuns
  import opened Readiness
  import opened DiskRuns
  import opened Serving
  import opened PictureParcel
  import ChosenRuns
  import StateFileRuns

  ghost predicate CleanTemps(d: Disk) {
    forall p :: IsTemp(p) ==> !Exists(d, p)
  }

  /** A list whose first item is good but a later one invalid; where the directory of the slot is missing, also
      what would have succeeded there, but for a reset or a list. */
  ghost predicate LeavesTemps(d: Disk, q: Request) {
    match q
    case SetAll(_, caller, items, fdCount, t) =>
      SetAllPrecheck(caller, items, fdCount) == NO_ERROR &&
      ListAnswer(items, t) != NO_ERROR && ListAnswer(items, t) != E_DEAL_FAILED && ListAnswer(items[..1], t) == NO_ERROR
    case Set(u, _, _, t, _, _) => GetWallpaperDir(u, TypeOf(t)) !in d.dirs && AnswerTo(q) == NO_ERROR
    case Custom(u, _, _, t, _) =>
      GetWallpaperDir(u, TypeOf(t)) !in d.dirs && UserDir(u) in d.dirs && AnswerTo(q) == NO_ERROR
    case _ => false
  }

  lemma SetKeepsClean(setup: Setup, a: State, b: State, u: int, t: WallpaperType, res: ResourceType, bytes: Bytes)
    requires SetDone(setup, a, b, u, t, res, bytes) && CleanTemps(a.disk)
    ensures CleanTemps(b.disk)
  {
    hide Rebuild;
    Layout(u, t);
    forall p | IsTemp(p) ensures !Exists(b.disk, p) {
      assert p != TMP ==> SameAt(a.disk, b.disk, p);
    }
  }

  lemma ElsewhereKeepsClean(a: Disk, b: Disk, u: int, t: WallpaperType)
    requires CleanTemps(a) && forall p :: !Below(p, GetWallpaperDir(u, t)) && p != StatePath(u) ==> SameAt(a, b, p)
    ensures CleanTemps(b)
  {
    Layout(u, t);
    forall p | IsTemp(p) ensures !Exists(b, p) {
      assert SameAt(a, b, p);
    }
  }

  lemma CustomKeepsClean(setup: Setup, a: State, q: Request, code: ErrorCode, b: State)
    requires q.Custom? && SureStep(setup, a, q, code, b) && ReadyFor(a.disk, q) && CleanTemps(a.disk)
    ensures CleanTemps(b.disk)
  {
    hide Refused, SetOutcome, WithPackage, NewText, FillBoth, Fill, Rebuild, StateSaved, CleanTemps, IsTree,
      RequestSure;
    var u, t := q.userId, TypeOf(q.wallpaperType);
    FillFacts(setup, a, u, t);
    if CustomPrecheck(q.caller, q.wallpaperType) == NO_ERROR && q.caller.sceneBoard {
      StateFileRuns.RefusedIssuesNone(setup, a, b, u);
      var m, n :| StateSaved(setup, a, m, u, t, RES_PACKAGE) && IsTree(m.disk) &&
                  SetOutcome(setup, m, n, u, q.caller.userAllowed, q.content, q.wallpaperType, q.length, RES_PACKAGE,
                             code) &&
                  b == WithPackage(setup, a, n, u, t);
      PackageFacts(setup, a, n, u, t);
      ChosenRuns.SavedElsewhere(setup, a, m, u, t);
      ElsewhereKeepsClean(a.disk, m.disk, u, t);
      InnerKeepsClean(setup, m, n, q, code);
    }
  }

  lemma InnerKeepsClean(setup: Setup, m: State, n: State, q: Request, code: ErrorCode)
    requires q.Custom? && code == SetAnswer(q.caller.userAllowed, q.content, q.wallpaperType, q.length, RES_PACKAGE)
    requires SetOutcome(setup, m, n, q.userId, q.caller.userAllowed, q.content, q.wallpaperType, q.length,
                        RES_PACKAGE, code)
    requires CleanTemps(m.disk)
    ensures CleanTemps(n.disk)
  {
    hide SetDone, Refused, Spoiled, Wiped, CleanTemps;
    if code == NO_ERROR {
      SetKeepsClean(setup, m, n, q.userId, TypeOf(q.wallpaperType), RES_PACKAGE,
                    Overwrite(Content(m.disk, TMP), Buffered(q.content, q.length)));
    }
  }

  lemma ListKeepsClean(setup: Setup, a: State, b: State, u: int, t: WallpaperType, items: seq<Item>)
    requires SetAllDone(setup, a, b, u, t, items) && CleanTemps(a.disk)
    ensures CleanTemps(b.disk)
  {
    hide PicturesSet;
    Layout(u, t);
    forall p | IsTemp(p) ensures !Exists(b.disk, p) {
      assert !IsTempOf(items, p) ==> SameAt(a.disk, b.disk, p);
    }
  }

  lemma GoneKeepsClean(a: Disk, b: Disk, items: seq<Item>)
    requires CleanTemps(a) && NoTempLeft(b, items) && forall p :: IsTemp(p) && !IsTempOf(items, p) ==> SameAt(a, b, p)
    ensures CleanTemps(b)
  {
  }

  /** An invalid item after good ones leaves their temporary files, one at the head of the list none. */
  lemma InvalidCleanExactly(a: Disk, b: Disk, items: seq<Item>, wallpaperType: int, i: int)
    requires CleanTemps(a) && 0 <= i < |items| && TempsWritten(a, b, wallpaperType, items[..i])
    requires CheckValid(wallpaperType, items[i].length, RES_PICTURE) == ListAnswer(items, wallpaperType)
    requires ListAnswer(items, wallpaperType) != NO_ERROR && ListAnswer(items, wallpaperType) != E_DEAL_FAILED
    ensures CleanTemps(b) <==> ListAnswer(items[..1], wallpaperType) != NO_ERROR
  {
    hide ListAnswer;
    ListNothing(wallpaperType, items);
    ListStep(items, wallpaperType, 0);
    if i == 0 {
      assert forall p :: IsTemp(p) ==> !IsTempOf(items[..0], p);
      assert forall p :: IsTemp(p) ==> SameAt(a, b, p);
    } else {
      assert items[..i][0] == items[0];
      assert items[0].TempFile() in b.files && IsTemp(items[0].TempFile());
      if ListAnswer(items[..1], wallpaperType) != NO_ERROR { ListStops(items, wallpaperType, 1); }
    }
  }

  lemma SetAllCleanExactly(setup: Setup, a: State, q: Request, code: ErrorCode, b: State)
    requires q.SetAll? && SureStep(setup, a, q, code, b) && ReadyFor(a.disk, q) && CleanTemps(a.disk)
    ensures CleanTemps(b.disk) <==> !LeavesTemps(a.disk, q)
  {
    hide Refused, Spoiled, SetAllDone, ListAnswer, NoTempLeft, OnlyTemps, ListRefused, RepeatsAt, PicturesLeft,
      HoldsOnly, DistinctScreens, Listed, CleanTemps, IsTree, RequestSure, IsTempOf, PicturesHold, SureStep;
    SureList(setup, a, q, code, b);
    if SetAllPrecheck(q.caller, q.items, q.fdCount) == NO_ERROR {
      if code == NO_ERROR {
        ListKeepsClean(setup, a, b, q.userId, TypeOf(q.wallpaperType), q.items);
      } else if ListAnswer(q.items, q.wallpaperType) != NO_ERROR {
        RefusedCleanExactly(setup, a, b, q.userId, q.items, q.wallpaperType, code);
      } else {
        GoneKeepsClean(a.disk, b.disk, q.items);
      }
    }
  }

  lemma RefusedCleanExactly(setup: Setup, a: State, b: State, u: int, items: seq<Item>, wallpaperType: int,
                            code: ErrorCode)
    requires ListRefused(setup, a, b, u, items, wallpaperType, code) && CleanTemps(a.disk)
    requires code == ListAnswer(items, wallpaperType) != NO_ERROR
    ensures CleanTemps(b.disk) <==> code == E_DEAL_FAILED || ListAnswer(items[..1], wallpaperType) != NO_ERROR
  {
    hide Refused, ListAnswer, NoTempLeft, OnlyTemps, TempsWritten, CleanTemps, IsTempOf;
    if code == E_DEAL_FAILED {
      var i: nat :| EmptyAt(items, wallpaperType, i) && NoTempLeft(b.disk, items[..i + 1]) &&
                    OnlyTemps(a.disk, b.disk, items[..i + 1]);
      GoneFromPrefix(a.disk, b.disk, items[..i + 1]);
    } else {
      var i :| 0 <= i < |items| && CheckValid(wallpaperType, items[i].length, RES_PICTURE) == code &&
               ListAnswer(items[..i], wallpaperType) == NO_ERROR &&
               TempsWritten(a.disk, b.disk, wallpaperType, items[..i]);
      InvalidCleanExactly(a.disk, b.disk, items, wallpaperType, i);
    }
  }

  lemma SetAllMissingCleanExactly(setup: Setup, a: State, q: Request, code: ErrorCode, b: State)
    requires q.SetAll? && MissingEffect(setup, a, q, code, b) && CleanTemps(a.disk)
    ensures CleanTemps(b.disk) <==> !LeavesTemps(a.disk, q)
  {
    hide ListAnswer, NoTempLeft, OnlyTemps, ListRefused, CleanTemps;
    if SetAllPrecheck(q.caller, q.items, q.fdCount) == NO_ERROR {
      if ListAnswer(q.items, q.wallpaperType) != NO_ERROR {
        RefusedCleanExactly(setup, a, b, q.userId, q.items, q.wallpaperType, code);
      } else {
        GoneFromPrefix(a.disk, b.disk, q.items);
      }
    }
  }

  /** A list of good items leaves none of their temporary files, whether it succeeds, stops at a repeated screen
      or fails because the directory of its slot is missing. */
  lemma GoodListLeavesNone(setup: Setup, a: State, q: Request, code: ErrorCode, b: State)
    requires q.SetAll? && SureStep(setup, a, q, code, b) && TempsReady(a.disk) && Base in a.disk.dirs
    requires SetAllPrecheck(q.caller, q.items, q.fdCount) == NO_ERROR
    requires ListAnswer(q.items, q.wallpaperType) == NO_ERROR
    ensures NoTempLeft(b.disk, q.items)
    ensures GetWallpaperDir(q.userId, TypeOf(q.wallpaperType)) !in a.disk.dirs ==> code == E_DEAL_FAILED
  {
    hide Refused, Spoiled, ListAnswer, RepeatsAt, PicturesLeft, HoldsOnly, Listed, IsTree, IsTempOf, PicturesHold,
      TempsReady, DistinctScreens, PicturesSet, NoTempLeft;
    if code == NO_ERROR && GetWallpaperDir(q.userId, TypeOf(q.wallpaperType)) in a.disk.dirs {
      DoneLeavesNone(setup, a, b, q.userId, TypeOf(q.wallpaperType), q.items);
    }
  }

  lemma DoneLeavesNone(setup: Setup, a: State, b: State, u: int, t: WallpaperType, items: seq<Item>)
    requires SetAllDone(setup, a, b, u, t, items)
    ensures NoTempLeft(b.disk, items)
  {
    hide PicturesSet, DistinctScreens;
  }

  lemma SetMissingCleanExactly(setup: Setup, a: State, q: Request, code: ErrorCode, b: State)
    requires q.Set? && Step(setup, a, q, code, b) && MissingEffect(setup, a, q, code, b) && CleanTemps(a.disk)
    requires GetWallpaperDir(q.userId, TypeOf(q.wallpaperType)) !in a.disk.dirs
    ensures CleanTemps(b.disk) <==> !LeavesTemps(a.disk, q)
  {
    hide SetDone, Refused, Spoiled, Wiped, CleanTemps, IsTree, InitDone;
    if AnswerTo(q) == NO_ERROR {
      OverwriteExact(Content(a.disk, TMP), Buffered(q.content, q.length));
      assert Content(b.disk, TMP) != [];
      NotClean(b.disk);
    }
  }

  lemma NotClean(d: Disk)
    requires TMP in d.files
    ensures !CleanTemps(d)
  {
    assert IsTemp(TMP);
  }

  lemma CustomMissingCleanExactly(setup: Setup, a: State, q: Request, code: ErrorCode, b: State)
    requires q.Custom? && MissingEffect(setup, a, q, code, b) && CleanTemps(a.disk)
    requires GetWallpaperDir(q.userId, TypeOf(q.wallpaperType)) !in a.disk.dirs && StatePath(q.userId) !in a.disk.dirs
    ensures CleanTemps(b.disk) <==> !LeavesTemps(a.disk, q)
  {
    hide NewText, FillBoth, Fill, CleanTemps, WithPackage;
    var u, t := q.userId, TypeOf(q.wallpaperType);
    FillFacts(setup, a, u, t);
    FillBothFacts(setup, a, u);
    if CustomPrecheck(q.caller, q.wallpaperType) == NO_ERROR && q.caller.sceneBoard && UserDir(u) in a.disk.dirs {
      var m := Announced(setup, a, u, t);
      StateIsNoTemp(a.disk, m.disk, u);
      if AnswerTo(q) == NO_ERROR {
        var n := LeftInTemp(m, Buffered(q.content, q.length));
        PackageFacts(setup, a, n, u, t);
        NotClean(n.disk);
      } else {
        PackageFacts(setup, a, m, u, t);
      }
    }
  }

  lemma StateIsNoTemp(a: Disk, b: Disk, u: int)
    requires CleanTemps(a) && forall p :: p != StatePath(u) ==> SameAt(a, b, p)
    ensures CleanTemps(b)
  {
    forall p | IsTemp(p) ensures !Exists(b, p) {
      assert SameAt(a, b, p);
    }
  }

  lemma GoneFromPrefix(a: Disk, b: Disk, items: seq<Item>)
    requires CleanTemps(a) && NoTempLeft(b, items) && OnlyTemps(a, b, items)
    ensures CleanTemps(b)
  {
    GoneKeepsClean(a, b, items);
  }

  /** On a reliable system whose files are where they belong, a request for a slot leaves no temporary file
      behind, where none was before, if and only if it is neither a list with an invalid item after good ones
      nor a set or a package that fails only because the directory of its slot is missing. */
  lemma SureCleanExactly(setup: Setup, a: State, q: Request, code: ErrorCode, b: State)
    requires SureStep(setup, a, q, code, b) && ForSlot(q) && Orderly(a.disk) && CleanTemps(a.disk)
    ensures CleanTemps(b.disk) <==> !LeavesTemps(a.disk, q)
  {
    hide SureStep, MissingEffect, SlotMissing, RequestSure, CleanTemps, LeavesTemps, Step;
    var u, t := q.userId, TypeOf(q.wallpaperType);
    ReadyOrMissing(a.disk, u, t);
    if GetWallpaperDir(u, t) in a.disk.dirs {
      ReadyCleanExactly(setup, a, q, code, b);
    } else {
      assert MissingEffect(setup, a, q, code, b) && Step(setup, a, q, code, b) by { IsMissing(setup, a, q, code, b); }
      match q
      case Set(_, _, _, _, _, _) => SetMissingCleanExactly(setup, a, q, code, b);
      case Custom(_, _, _, _, _) =>
        assert IsStateFile(StatePath(u));
        CustomMissingCleanExactly(setup, a, q, code, b);
      case Reset(_, _, _) => ResetMissingClean(setup, a, q, code, b);
      case SetAll(_, _, _, _, _) => SetAllMissingCleanExactly(setup, a, q, code, b);
    }
  }

  lemma IsMissing(setup: Setup, a: State, q: Request, code: ErrorCode, b: State)
    requires SureStep(setup, a, q, code, b) && ForSlot(q) && SlotMissing(a.disk, q.userId, TypeOf(q.wallpaperType))
    ensures MissingEffect(setup, a, q, code, b) && Step(setup, a, q, code, b)
  {
    hide MissingEffect, SlotMissing, Step;
  }

  lemma ResetMissingClean(setup: Setup, a: State, q: Request, code: ErrorCode, b: State)
    requires q.Reset? && MissingEffect(setup, a, q, code, b) && CleanTemps(a.disk)
    ensures CleanTemps(b.disk) && !LeavesTemps(a.disk, q)
  {
    hide Fill, CleanTemps;
    FillFacts(setup, a, q.userId, TypeOf(q.wallpaperType));
  }

  lemma ReadyCleanExactly(setup: Setup, a: State, q: Request, code: ErrorCode, b: State)
    requires SureStep(setup, a, q, code, b) && ReadyFor(a.disk, q) && CleanTemps(a.disk)
    ensures CleanTemps(b.disk) <==> !LeavesTemps(a.disk, q)
  {
    hide SetDone, ResetDone, SetAllDone, CustomOutcome, Refused, Spoiled, Wiped, CleanTemps, IsTree, TempsReady,
      SetAllSure, SlotMissing, MissingOutcome;
    ReadyForBoth(setup, a, q);
    match q {
      case Set(u, allowed, content, t, length, res) =>
        if code == NO_ERROR {
          SetKeepsClean(setup, a, b, u, TypeOf(t), res, Overwrite(Content(a.disk, TMP), Buffered(content, length)));
        } else {
          assert b == a;
        }
      case Custom(_, _, _, _, _) => CustomKeepsClean(setup, a, q, code, b);
      case Reset(u, _, t) =>
        if code == NO_ERROR {
          ResetKeepsClean(setup, a, b, u, TypeOf(t));
        } else {
          assert b == a;
        }
      case SetAll(_, _, _, _, _) => SetAllCleanExactly(setup, a, q, code, b);
    }
  }

  lemma ResetKeepsClean(setup: Setup, a: State, b: State, u: int, t: WallpaperType)
    requires ResetDone(setup, a, b, u, t) && CleanTemps(a.disk)
    ensures CleanTemps(b.disk)
  {
    hide Rebuild, CleanTemps;
    ElsewhereKeepsClean(a.disk, b.disk, u, t);
  }

  // ----- whole runs -----

  /** What a successful request promises to show: a list with a normal portrait its stand-ins, a picture itself. */
  ghost predicate Shows(q: Request, b: State) {
    match q
    case SetAll(u, _, items, _, t) => Listed(items, Normal, Port) ==> ServesList(b, u, TypeOf(t), items)
    case Set(u, _, content, t, length, res) =>
      res.RES_PICTURE? && length >= 0 ==>
        b.Has(u, TypeOf(t)) &&
        forall f: FoldState, rotateState: int ::
          var p := GetWallpaperPath(FoldCode(f), rotateState, b.At(u, TypeOf(t)).pictures);
          p in b.disk.files && b.disk.files[p] == Buffered(content, length)
    case _ => true
  }

  lemma CleanShows(setup: Setup, a: State, q: Request, b: State)
    requires Step(setup, a, q, NO_ERROR, b) && CleanTemps(a.disk)
    ensures Shows(q, b)
  {
    hide SetDone, SetAllDone, CustomOutcome, ResetOutcome, ServesList, Listed, IsTree, Below, GetWallpaperPath,
      InitOutcome, RemoveOutcome, SwitchOutcome, RestartOutcome, BootOutcome;
    match q {
      case SetAll(u, _, items, _, t) =>
        if Listed(items, Normal, Port) {
          NothingLong(a.disk, items);
          ServedIsWhatWasSet(setup, a, b, u, TypeOf(t), items);
        }
      case Set(u, _, content, t, length, res) =>
        if res.RES_PICTURE? {
          PictureShows(setup, a, b, u, TypeOf(t), Buffered(content, length));
        }
      case _ =>
    }
  }

  lemma NothingLong(d: Disk, items: seq<Item>)
    requires CleanTemps(d)
    ensures NoLongTemps(d, items)
  {
    forall i | 0 <= i < |items| ensures |Content(d, items[i].TempFile())| <= |items[i].Buffer()| {
      assert IsTemp(items[i].TempFile());
    }
  }

  lemma PictureShows(setup: Setup, a: State, b: State, u: int, t: WallpaperType, bytes: Bytes)
    requires SetDone(setup, a, b, u, t, RES_PICTURE, Overwrite(Content(a.disk, TMP), bytes)) && CleanTemps(a.disk)
    ensures b.Has(u, t)
    ensures forall f: FoldState, rotateState: int ::
              var p := GetWallpaperPath(FoldCode(f), rotateState, b.At(u, t).pictures);
              p in b.disk.files && b.disk.files[p] == bytes
  {
    assert b.Has(u, t) && IsTemp(TMP) && Content(a.disk, TMP) == [];
    hide SetDone, CleanTemps, GetWallpaperPath;
    forall f: FoldState, rotateState: int
      ensures var p := GetWallpaperPath(FoldCode(f), rotateState, b.At(u, t).pictures);
              p in b.disk.files && b.disk.files[p] == bytes
    {
      OnePictureServesAll(setup, a, b, u, t, bytes, f, rotateState);
    }
  }

  lemma EventKeepsClean(setup: Setup, a: State, q: Request, code: ErrorCode, b: State)
    requires Step(setup, a, q, code, b) && !ForSlot(q) && CleanTemps(a.disk)
    ensures CleanTemps(b.disk)
  {
    hide InitDone, CleanTemps, IsRebuilt, IsTree, BothPresent;
    match q
    case Lookup(u, t, _) => if b != a { UserKeepsClean(a.disk, b.disk, u); }
    case InitUser(u) => if u >= 0 { UserKeepsClean(a.disk, b.disk, u); }
    case RemoveUser(u) => if u >= 0 { UserKeepsClean(a.disk, b.disk, u); }
    case SwitchUser(u, active) =>
      if b.disk != a.disk {
        UserDirsInside(u);
        UserKeepsClean(a.disk, b.disk, u);
      }
    case Restart(_) => ScaffoldKeepsClean(a.disk, b.disk);
    case Boot(_) => ScaffoldKeepsClean(a.disk, b.disk);
  }

  lemma UserKeepsClean(a: Disk, b: Disk, u: int)
    requires CleanTemps(a) && forall p :: !Inside(p, UserDir(u)) ==> SameAt(a, b, p)
    ensures CleanTemps(b)
  {
    forall p | IsTemp(p) ensures !Exists(b, p) {
      TempsOutsideUsers(p, u);
      assert SameAt(a, b, p);
    }
  }

  lemma ScaffoldKeepsClean(a: Disk, b: Disk)
    requires CleanTemps(a) && ScaffoldOnly(a, b)
    ensures CleanTemps(b)
  {
    forall p | IsTemp(p) ensures !Exists(b, p) {
      assert SameAt(a, b, p);
    }
  }

  /** No request of the run leaves temporary files. */
  ghost predicate NoneLeaves(start: State, events: seq<Event>)
    decreases |events|
  {
    events == [] || (!LeavesTemps(start.disk, events[0].request) && NoneLeaves(events[0].after, events[1..]))
  }

  /** On a reliable system a step of such a run keeps the disk in order and free of temporary files. */
  lemma CleanStep(setup: Setup, a: State, q: Request, code: ErrorCode, b: State)
    requires SureStep(setup, a, q, code, b) && !LeavesTemps(a.disk, q) && Orderly(a.disk) && CleanTemps(a.disk)
    ensures Orderly(b.disk) && CleanTemps(b.disk) && Step(setup, a, q, code, b)
  {
    hide SureStep, Step, LeavesTemps, Orderly, CleanTemps;
    SureIsStep(setup, a, q, code, b);
    StepKeepsOrderly(setup, a, q, code, b);
    if ForSlot(q) {
      SureCleanExactly(setup, a, q, code, b);
    } else {
      EventKeepsClean(setup, a, q, code, b);
    }
  }

  /** On a reliable system that starts in order and without leftover temporary files, along any run of requests
      and account events, none of which leaves temporary files: every request that succeeds shows exactly what
      it set, whichever users and screens the others were for. */
  lemma {:induction false} CleanRunShows(setup: Setup, start: State, events: seq<Event>)
    requires SureRun(setup, start, events) && NoneLeaves(start, events) && Orderly(start.disk) && CleanTemps(start.disk)
    ensures forall i :: 0 <= i < |events| && events[i].code == NO_ERROR ==> Shows(events[i].request, events[i].after)
    ensures Orderly(Final(start, events).disk) && CleanTemps(Final(start, events).disk)
    decreases |events|
  {
    hide SureStep, LeavesTemps, CleanTemps, Orderly, Shows, Step;
    if events != [] {
      var e, rest := events[0], events[1..];
      CleanStep(setup, start, e.request, e.code, e.after);
      CleanRunShows(setup, e.after, rest);
      if e.code == NO_ERROR { CleanShows(setup, start, e.request, e.after); }
      forall i | 0 <= i < |events| && events[i].code == NO_ERROR ensures Shows(events[i].request, events[i].after) {
        assert i > 0 ==> events[i] == rest[i - 1];
      }
    }
  }

  /** The temporary file is shared: a set for one user that fails because its directory is missing leaves its
      bytes there, and the next picture, of whatever user, ends in their tail unless it is at least as long. */
  lemma TailCrossesUsers(setup: Setup, a: State, first: Request, m: State, second: Request, b: State, c: ErrorCode)
    requires first.Set? && second.Set? && second.res.RES_PICTURE? && AnswerTo(first) == NO_ERROR == AnswerTo(second)
    requires SlotMissing(a.disk, first.userId, TypeOf(first.wallpaperType)) && TMP !in a.disk.files
    requires SureStep(setup, a, first, c, m) && ReadyFor(m.disk, second) && SureStep(setup, m, second, NO_ERROR, b)
    ensures var (u, t) := (second.userId, TypeOf(second.wallpaperType));
            var left, bytes := Buffered(first.content, first.length), Buffered(second.content, second.length);
            var p := PicturePath(u, t, Normal, Port);
            p in b.disk.files && b.disk.files[p] == Overwrite(left, bytes) &&
            (b.disk.files[p] == bytes <==> |left| <= |bytes|)
  {
    var u, t := second.userId, TypeOf(second.wallpaperType);
    var left, bytes := Buffered(first.content, first.length), Buffered(second.content, second.length);
    assert Content(m.disk, TMP) == left by { LeftBehind(setup, a, first, c, m); }
    OverwriteExact(left, bytes);
    hide SlotMissing, RequestSure, Wiped, Buffered, Overwrite, IsTree;
    assert SetDone(setup, m, b, u, t, RES_PICTURE, Overwrite(Content(m.disk, TMP), bytes));
  }

  lemma LeftBehind(setup: Setup, a: State, q: Request, c: ErrorCode, m: State)
    requires q.Set? && AnswerTo(q) == NO_ERROR && SureStep(setup, a, q, c, m)
    requires SlotMissing(a.disk, q.userId, TypeOf(q.wallpaperType)) && TMP !in a.disk.files
    ensures Content(m.disk, TMP) == Buffered(q.content, q.length)
  {
    hide SetOutcome, Wiped, RequestSure, InitDone;
    OverwriteExact([], Buffered(q.content, q.length));
  }
}
