/** What holds over whole runs of the service.

    A run is any sequence of requests and account events, each with any outcome the operating system
    allows; `Step` is what the methods of WallpaperService guarantee for one of them. */
module ServiceRuns {
  import opened Paths
  import opened FileDeal
  import opened StateFile
  import opened ServiceState
  import opened EntryFacts
  import opened ListSteps

  /** A read of a slot, of its picture as by GetFile or for a screen as by GetCorrespondWallpaper. */
  datatype Read = ReadPicture | ReadScreen(foldState: int, rotateState: int)

  datatype Request =
    | Set(userId: int, allowed: bool, content: Bytes, wallpaperType: int, length: int, res: ResourceType)
    | Custom(userId: int, caller: Caller, content: Bytes, wallpaperType: int, length: int)
    | Reset(userId: int, caller: Caller, wallpaperType: int)
    | SetAll(userId: int, caller: Caller, items: seq<Item>, fdCount: nat, wallpaperType: int)
    | Lookup(userId: int, slotType: WallpaperType, read: Read)
    | InitUser(userId: int)
    | RemoveUser(userId: int)
    | SwitchUser(userId: int, active: int)
    | Restart(active: int)
    | Boot(users: seq<int>)

  predicate ForSlot(q: Request) {
    q.Set? || q.Custom? || q.Reset? || q.SetAll?
  }

  /** The answer on a reliable system whose directories are there. */
  function AnswerTo(q: Request): ErrorCode {
    match q
    case Set(_, allowed, content, t, length, res) => SetAnswer(allowed, content, t, length, res)
    case Custom(_, caller, content, t, length) => CustomAnswer(caller, content, t, length)
    case Reset(_, caller, t) => ResetPrecheck(caller, t)
    case SetAll(_, caller, items, fdCount, t) => SetAllAnswer(caller, items, fdCount, t)
    case _ => NO_ERROR
  }

  ghost predicate Step(setup: Setup, a: State, q: Request, code: ErrorCode, b: State) {
    IsTree(b.disk) &&
    match q
    case Set(u, allowed, content, t, length, res) => SetOutcome(setup, a, b, u, allowed, content, t, length, res, code)
    case Custom(u, caller, content, t, length) => CustomOutcome(setup, a, b, u, caller, content, t, length, code)
    case Reset(u, caller, t) => ResetOutcome(setup, a, b, u, caller, t, code)
    case SetAll(u, caller, items, fdCount, t) => SetAllOutcome(setup, a, b, u, caller, items, fdCount, t, code)
    case Lookup(u, t, _) => LookupOutcome(setup, a, b, u, t)
    case InitUser(u) => InitOutcome(setup, a, b, u)
    case RemoveUser(u) => RemoveOutcome(a, b, u)
    case SwitchUser(u, active) => SwitchOutcome(setup, a, b, u, active)
    case Restart(active) => RestartOutcome(setup, a, b, active)
    case Boot(users) => BootOutcome(setup, a, b, users)
  }

  /** A step on a reliable system: besides what `Step` says, the answer and the effect of a request for a slot
      whose directories are there, or of a set whose directory is missing, follow from the request; and the
      effect of a read or an account event follows from the state. */
  ghost predicate SureStep(setup: Setup, a: State, q: Request, code: ErrorCode, b: State) {
    Step(setup, a, q, code, b) &&
    (ForSlot(q) && Able(a.disk, q) ==> code == AnswerTo(q) && SureEffect(setup, a, q, code, b)) &&
    (ForSlot(q) && SlotMissing(a.disk, q.userId, TypeOf(q.wallpaperType)) ==> MissingEffect(setup, a, q, code, b)) &&
    SureEvent(setup, a, q, b)
  }

  /** What the service checks of a request before it touches anything. */
  function Precheck(q: Request): ErrorCode
    requires ForSlot(q)
  {
    match q
    case Set(_, allowed, _, t, length, res) => SetPrecheck(allowed, t, length, res)
    case Custom(_, caller, _, t, _) => CustomPrecheck(caller, t)
    case Reset(_, caller, t) => ResetPrecheck(caller, t)
    case SetAll(_, caller, items, fdCount, _) => SetAllPrecheck(caller, items, fdCount)
  }

  /** A request that fails a check is answered with it and changes nothing, on any system. */
  lemma RefusedUpFront(setup: Setup, a: State, q: Request, code: ErrorCode, b: State)
    requires ForSlot(q) && Step(setup, a, q, code, b) && Precheck(q) != NO_ERROR
    ensures code == Precheck(q) && b == a
  {
    hide Refused, Spoiled, Wiped, SetDone, ResetDone, SetAllDone, WithPackage, StateSaved, IsTree;
  }

  /** The directories that the request needs are there; a list needs no state file. */
  ghost predicate Able(d: Disk, q: Request)
    requires ForSlot(q)
  {
    if q.SetAll? then ListSure(true, d, q.userId, TypeOf(q.wallpaperType))
    else RequestSure(true, d, q.userId, TypeOf(q.wallpaperType))
  }

  /** What a request does when the directory of its slot is missing. */
  ghost predicate MissingEffect(setup: Setup, a: State, q: Request, code: ErrorCode, b: State)
    requires ForSlot(q)
  {
    match q
    case Set(u, allowed, content, t, length, res) =>
      code == SetMissingAnswer(allowed, content, t, length, res) &&
      (AnswerTo(q) == NO_ERROR ==> MissingOutcome(setup, a, b, u, TypeOf(t), res, Buffered(content, length), code))
    case Custom(u, caller, content, t, length) => CustomMissing(setup, a, b, u, caller, content, t, length, code)
    case Reset(u, caller, t) =>
      if AnswerTo(q) != NO_ERROR then code == AnswerTo(q) && b == a
      else code == E_DEAL_FAILED && b == Fill(setup, a, u, TypeOf(t))
    case SetAll(u, caller, items, fdCount, t) =>
      if Precheck(q) != NO_ERROR then code == Precheck(q) && b == a
      else SetAllMissing(setup, a, b, u, TypeOf(t), items, t, code)
  }

  /** What a read or an account event does on a reliable system. */
  ghost predicate SureEvent(setup: Setup, a: State, q: Request, b: State) {
    match q
    case Lookup(u, t, _) => SureRead(setup, a, b, u, t)
    case InitUser(u) => SureSetUp(setup, a, b, u)
    case RemoveUser(u) => u >= 0 && UserDir(u) in a.disk.dirs ==> UserGone(b.disk, u)
    case SwitchUser(u, active) => SureSwitch(a, b, u, active)
    case Restart(active) => SureRestart(a, b, active) && (CanBeLaid(a.disk, 0) ==> b.disk == LaidOut(a.disk, 0))
    case Boot(users) =>
      (forall u :: u in users && CanBeLaid(a.disk, u) ==> Laid(b.disk, u)) &&
      ((forall u :: u in users ==> CanBeLaid(a.disk, u)) ==> b.disk == AllLaidOut(a.disk, users))
    case _ => true
  }

  ghost predicate SureEffect(setup: Setup, a: State, q: Request, code: ErrorCode, b: State) {
    match q
    case Custom(_, caller, _, t, _) =>
      CustomPrecheck(caller, t) == NO_ERROR && caller.sceneBoard ==> b.issued > a.issued
    case SetAll(u, caller, items, fdCount, t) =>
      SetAllPrecheck(caller, items, fdCount) == NO_ERROR ==> SetAllSure(setup, a, b, u, TypeOf(t), items, t, code)
    case _ => true
  }

  lemma SureIsStep(setup: Setup, a: State, q: Request, code: ErrorCode, b: State)
    requires SureStep(setup, a, q, code, b)
    ensures Step(setup, a, q, code, b)
  {
  }

  lemma SureRestarted(setup: Setup, a: State, active: int, code: ErrorCode, b: State)
    requires SureStep(setup, a, Restart(active), code, b)
    ensures RestartOutcome(setup, a, b, active) && SureRestart(a, b, active) && IsTree(b.disk)
  {
    hide RestartOutcome, SureRestart, IsTree;
  }

  lemma ReadIsSure(setup: Setup, a: State, q: Request, b: State)
    requires q.Lookup? && IsTree(b.disk) && !a.Has(q.userId, q.slotType) && CanSetUp(a.disk, q.userId)
    requires InitOutcome(setup, a, b, q.userId) && InitDone(setup, b, q.userId)
    ensures SureStep(setup, a, q, NO_ERROR, b)
  {
    hide InitOutcome, InitDone, IsTree, CanSetUp;
  }

  lemma SureList(setup: Setup, a: State, q: Request, code: ErrorCode, b: State)
    requires q.SetAll? && SureStep(setup, a, q, code, b)
    requires RequestSure(true, a.disk, q.userId, TypeOf(q.wallpaperType))
    ensures code == SetAllAnswer(q.caller, q.items, q.fdCount, q.wallpaperType)
    ensures if SetAllPrecheck(q.caller, q.items, q.fdCount) != NO_ERROR then b == a
            else SetAllSure(setup, a, b, q.userId, TypeOf(q.wallpaperType), q.items, q.wallpaperType, code)
    ensures code == NO_ERROR ==> SetAllDone(setup, a, b, q.userId, TypeOf(q.wallpaperType), q.items) && |q.items| > 0
    ensures IsTree(b.disk)
  {
    ReadyIsListSure(true, a.disk, q.userId, TypeOf(q.wallpaperType));
    hide SetAllDone, SetAllSure, ListAnswer, DistinctScreens, RequestSure, ListSure, SlotMissing, MissingEffect, IsTree,
      Refused, Spoiled;
  }

  datatype Event = Event(request: Request, code: ErrorCode, after: State)

  ghost predicate Run(setup: Setup, start: State, events: seq<Event>)
    decreases |events|
  {
    events == [] ||
    (Step(setup, start, events[0].request, events[0].code, events[0].after) &&
     Run(setup, events[0].after, events[1..]))
  }

  function Final(start: State, events: seq<Event>): State {
    if events == [] then start else events[|events| - 1].after
  }

  // ----- well-formed entries, whatever fails -----

  lemma RefusedWellFormed(setup: Setup, a: State, b: State, u: int)
    requires WellFormed(a) && Refused(setup, a, b, u) && IsTree(b.disk)
    ensures WellFormed(b)
  {
  }

  /** A state that differs from a well-formed one in well-formed entries and at most one more id. */
  lemma EntriesWellFormed(a: State, b: State)
    requires WellFormed(a) && IsTree(b.disk)
    requires (b.issued == a.issued && b.wallpaperId == a.wallpaperId) ||
             (b.issued == a.issued + 1 && b.wallpaperId == NextId(a.wallpaperId))
    requires forall x: Slot :: x in b.entries ==> SameEntry(a, b, x) || EntryOk(b.entries[x], x)
    ensures WellFormed(b)
  {
    NextIdCounts(a.issued);
    forall x: Slot | x in b.entries ensures EntryOk(b.entries[x], x) {
      assert SameEntry(a, b, x) || EntryOk(b.entries[x], x);
    }
  }

  lemma SpoiledWellFormed(setup: Setup, a: State, b: State, u: int, t: WallpaperType)
    requires WellFormed(a) && Spoiled(setup, a, b, u, t) && IsTree(b.disk)
    ensures WellFormed(b)
  {
    hide IsTree, SameAt, Below, StateKept, WellFormed, Rebuild;
    forall x: Slot | x in b.entries ensures SameEntry(a, b, x) || EntryOk(b.entries[x], x) {
      assert x in a.entries || IsFresh(b.entries[x], x);
    }
    EntriesWellFormed(a, b);
  }

  lemma WipedWellFormed(setup: Setup, a: State, b: State, u: int)
    requires WellFormed(a) && Wiped(setup, a, b, u) && IsTree(b.disk)
    ensures WellFormed(b)
  {
    hide IsTree, Rebuild, SameAt, Inside, StateFileFits, WellFormed;
    forall x: Slot | x in b.entries ensures SameEntry(a, b, x) || EntryOk(b.entries[x], x) {
      RebuildIsFresh(setup, b.disk, u, x.wallpaperType);
      if x.userId == u && InitDone(setup, b, u) {
        assert x == Slot(u, x.wallpaperType) && b.Has(u, x.wallpaperType);
      }
    }
    EntriesWellFormed(a, b);
  }

  lemma SetDoneWellFormed(setup: Setup, a: State, b: State, u: int, t: WallpaperType, res: ResourceType, bytes: Bytes)
    requires WellFormed(a) && SetDone(setup, a, b, u, t, res, bytes) && IsTree(b.disk)
    ensures WellFormed(b)
  {
    hide Installed, IsTree, Rebuild;
    NextIdCounts(a.issued);
    DefaultPictures(setup, t);
    RebuildIsFresh(setup, b.disk, u, OtherType(t));
    TwoSlots(u);
    forall x: Slot | x in b.entries ensures SameEntry(a, b, x) || EntryOk(b.entries[x], x) {
      assert x.userId == u ==> x == Slot(u, t) || x == Slot(u, OtherType(t));
      assert a.Has(u, t) ==> EntryOk(a.At(u, t), Slot(u, t));
    }
    EntriesWellFormed(a, b);
  }

  lemma SetWellFormed(setup: Setup, a: State, b: State, u: int, allowed: bool, content: Bytes, wallpaperType: int,
                      length: int, res: ResourceType, code: ErrorCode)
    requires WellFormed(a) && SetOutcome(setup, a, b, u, allowed, content, wallpaperType, length, res, code) &&
             IsTree(b.disk)
    ensures WellFormed(b)
  {
    hide SetDone, Refused, Spoiled, Wiped, WellFormed;
    if content != [] && SetPrecheck(allowed, wallpaperType, length, res) == NO_ERROR {
      if code == NO_ERROR {
        SetDoneWellFormed(setup, a, b, u, TypeOf(wallpaperType), res,
                          Overwrite(Content(a.disk, TMP), Buffered(content, length)));
      } else if code == E_DEAL_FAILED {
        if Refused(setup, a, b, u) {
          RefusedWellFormed(setup, a, b, u);
        } else if Spoiled(setup, a, b, u, TypeOf(wallpaperType)) {
          SpoiledWellFormed(setup, a, b, u, TypeOf(wallpaperType));
        } else {
          WipedWellFormed(setup, a, b, u);
        }
      }
    }
  }

  lemma PackageFacts(setup: Setup, a: State, n: State, u: int, t: WallpaperType)
    ensures var b := WithPackage(setup, a, n, u, t);
            b.disk == n.disk && b.currentUserId == n.currentUserId &&
            b.issued == n.issued + 1 && b.wallpaperId == NextId(n.wallpaperId) &&
            (forall x: Slot :: x != Slot(u, t) ==> SameEntry(n, b, x)) &&
            b.Has(u, t) && b.At(u, t).resourceType == RES_PACKAGE && b.At(u, t).wallpaperId == b.wallpaperId &&
            b.At(u, t) == Current(setup, a, u, t).(pictures := b.At(u, t).pictures, resourceType := RES_PACKAGE,
                                                   wallpaperId := b.wallpaperId) &&
            b.At(u, t).pictures.wallpaperFile == Current(setup, a, u, t).pictures.wallpaperFile
  {
    hide Rebuild;
  }

  lemma PackageWellFormed(setup: Setup, a: State, n: State, u: int, t: WallpaperType)
    requires WellFormed(a) && WellFormed(n)
    ensures WellFormed(WithPackage(setup, a, n, u, t))
  {
    hide Rebuild, IsTree, WithPackage, IsPortrait;
    NextIdCounts(n.issued);
    RebuildIsFresh(setup, a.disk, u, t);
    PackageFacts(setup, a, n, u, t);
    var b := WithPackage(setup, a, n, u, t);
    assert EntryOk(Current(setup, a, u, t), Slot(u, t));
    assert EntryOk(b.At(u, t), Slot(u, t));
    hide EntryOk, Current, WellFormed;
    EntriesWellFormed(n, b);
  }

  lemma CustomWellFormed(setup: Setup, a: State, b: State, u: int, caller: Caller, content: Bytes, wallpaperType: int,
                         length: int, code: ErrorCode)
    requires WellFormed(a) && CustomOutcome(setup, a, b, u, caller, content, wallpaperType, length, code) &&
             IsTree(b.disk)
    ensures WellFormed(b)
  {
    hide Refused, SetOutcome, FillBoth, WellFormed, WithPackage, NewText, Fill, IsTree;
    var t := TypeOf(wallpaperType);
    if CustomPrecheck(caller, wallpaperType) == NO_ERROR {
      if !caller.sceneBoard {
        FillWellFormed(setup, a, u, t);
      } else if Refused(setup, a, b, u) {
        RefusedWellFormed(setup, a, b, u);
      } else {
        var m, n :| StateSaved(setup, a, m, u, t, RES_PACKAGE) && IsTree(m.disk) &&
                    SetOutcome(setup, m, n, u, caller.userAllowed, content, wallpaperType, length, RES_PACKAGE, code) &&
                    b == WithPackage(setup, a, n, u, t);
        FilledWellFormed(setup, a, m.disk, u);
        assert n.disk == b.disk by { PackageFacts(setup, a, n, u, t); }
        SetWellFormed(setup, m, n, u, caller.userAllowed, content, wallpaperType, length, RES_PACKAGE, code);
        PackageWellFormed(setup, a, n, u, t);
      }
    }
  }

  lemma FillWellFormed(setup: Setup, a: State, u: int, t: WallpaperType)
    requires WellFormed(a)
    ensures WellFormed(Fill(setup, a, u, t))
  {
    RebuildIsFresh(setup, a.disk, u, t);
  }

  lemma ResetDoneWellFormed(setup: Setup, a: State, b: State, u: int, t: WallpaperType)
    requires WellFormed(a) && ResetDone(setup, a, b, u, t) && IsTree(b.disk)
    ensures WellFormed(b)
  {
    hide IsTree, Rebuild;
    DefaultPictures(setup, t);
    RebuildIsFresh(setup, b.disk, u, OtherType(t));
    TwoSlots(u);
    forall x: Slot | x in b.entries ensures SameEntry(a, b, x) || EntryOk(b.entries[x], x) {
      assert x.userId == u ==> x == Slot(u, t) || x == Slot(u, OtherType(t));
    }
    EntriesWellFormed(a, b);
  }

  lemma SetAllDoneWellFormed(setup: Setup, a: State, b: State, u: int, t: WallpaperType, items: seq<Item>)
    requires WellFormed(a) && SetAllDone(setup, a, b, u, t, items) && IsTree(b.disk)
    ensures WellFormed(b)
  {
    hide IsTree, DistinctScreens, Overwrite, Listed;
    NextIdCounts(a.issued);
    var e := b.At(u, t);
    assert e.pictures.wallpaperFile == e.pictures.At(Normal, Port);
    forall x: Slot | x in b.entries ensures SameEntry(a, b, x) || EntryOk(b.entries[x], x) {
      if x == Slot(u, t) { assert EntryOk(e, x); }
    }
    EntriesWellFormed(a, b);
  }

  lemma InitWellFormed(setup: Setup, a: State, b: State, u: int)
    requires WellFormed(a) && InitOutcome(setup, a, b, u) && IsTree(b.disk)
    ensures WellFormed(b)
  {
    hide IsTree, Rebuild;
    if u >= 0 {
      forall x: Slot | x in b.entries ensures SameEntry(a, b, x) || EntryOk(b.entries[x], x) {
        RebuildIsFresh(setup, b.disk, u, x.wallpaperType);
        if x.userId == u && InitDone(setup, b, u) {
          assert x == Slot(u, x.wallpaperType) && b.Has(u, x.wallpaperType);
        }
      }
      EntriesWellFormed(a, b);
    }
  }

  lemma RebuiltWellFormed(setup: Setup, a: State, b: State)
    requires WellFormed(a) && IsTree(b.disk)
    requires (b.issued == a.issued && b.wallpaperId == a.wallpaperId) || (b.issued == 0 && b.wallpaperId == -1)
    requires forall x: Slot :: x in b.entries ==> SameEntry(a, b, x) || IsRebuilt(setup, b, x)
    ensures WellFormed(b)
  {
    hide IsTree, Rebuild;
    forall x: Slot | x in b.entries ensures EntryOk(b.entries[x], x) {
      RebuildIsFresh(setup, b.disk, x.userId, x.wallpaperType);
      assert x == Slot(x.userId, x.wallpaperType);
      assert SameEntry(a, b, x) || IsRebuilt(setup, b, x);
    }
  }

  /** Every request keeps every entry well-formed, also when I/O fails half-way. */
  lemma StepKeepsWellFormed(setup: Setup, a: State, q: Request, code: ErrorCode, b: State)
    requires WellFormed(a) && Step(setup, a, q, code, b)
    ensures WellFormed(b)
  {
    hide SetOutcome, CustomOutcome, Refused, Spoiled, ResetDone, SetAllDone, InitOutcome, IsTree, WellFormed,
      RemoveOutcome, SwitchOutcome, RestartOutcome, BootOutcome;
    match q
    case Set(u, allowed, content, t, length, res) =>
      SetWellFormed(setup, a, b, u, allowed, content, t, length, res, code);
    case Custom(u, caller, content, t, length) => CustomWellFormed(setup, a, b, u, caller, content, t, length, code);
    case Reset(u, caller, t) =>
      if ResetDone(setup, a, b, u, TypeOf(t)) { ResetDoneWellFormed(setup, a, b, u, TypeOf(t)); }
      if Refused(setup, a, b, u) { RefusedWellFormed(setup, a, b, u); }
      if Spoiled(setup, a, b, u, TypeOf(t)) { SpoiledWellFormed(setup, a, b, u, TypeOf(t)); }
    case SetAll(u, caller, items, fdCount, t) =>
      if SetAllDone(setup, a, b, u, TypeOf(t), items) { SetAllDoneWellFormed(setup, a, b, u, TypeOf(t), items); }
      if Refused(setup, a, b, u) { RefusedWellFormed(setup, a, b, u); }
      if Spoiled(setup, a, b, u, TypeOf(t)) { SpoiledWellFormed(setup, a, b, u, TypeOf(t)); }
    case Lookup(u, t, _) => if !a.Has(u, t) { InitWellFormed(setup, a, b, u); }
    case InitUser(u) => InitWellFormed(setup, a, b, u);
    case RemoveUser(u) => RemovedWellFormed(a, b, u);
    case SwitchUser(u, active) => SwitchedWellFormed(setup, a, b, u, active);
    case Restart(active) => RestartedWellFormed(setup, a, b, active);
    case Boot(users) => BootedWellFormed(setup, a, b, users);
  }

  lemma RemovedWellFormed(a: State, b: State, u: int)
    requires WellFormed(a) && RemoveOutcome(a, b, u) && IsTree(b.disk)
    ensures WellFormed(b)
  {
    hide IsTree;
    if u >= 0 {
      forall x: Slot | x in b.entries ensures SameEntry(a, b, x) || EntryOk(b.entries[x], x) {
        assert x.userId != u by {
          assert x == Slot(x.userId, x.wallpaperType) && !b.Has(u, x.wallpaperType);
        }
      }
      EntriesWellFormed(a, b);
    }
  }

  lemma SwitchedWellFormed(setup: Setup, a: State, b: State, u: int, active: int)
    requires WellFormed(a) && SwitchOutcome(setup, a, b, u, active) && IsTree(b.disk)
    ensures WellFormed(b)
  {
    hide IsTree, Rebuild, ScaffoldOnly;
    if b != a {
      RebuiltWellFormed(setup, a, b);
    }
  }

  lemma RestartedWellFormed(setup: Setup, a: State, b: State, active: int)
    requires WellFormed(a) && RestartOutcome(setup, a, b, active) && IsTree(b.disk)
    ensures WellFormed(b)
  {
    hide IsTree, Rebuild, ScaffoldOnly;
    RebuiltWellFormed(setup, a, b);
  }

  lemma BootedWellFormed(setup: Setup, a: State, b: State, users: seq<int>)
    requires WellFormed(a) && BootOutcome(setup, a, b, users) && IsTree(b.disk)
    ensures WellFormed(b)
  {
    hide IsTree, Rebuild, ScaffoldOnly;
    forall x: Slot | x in b.entries ensures SameEntry(a, b, x) || IsRebuilt(setup, b, x) {
      assert x.userId in users ==> IsRebuilt(setup, b, x);
    }
    RebuiltWellFormed(setup, a, b);
  }

  lemma {:induction false} RunKeepsWellFormed(setup: Setup, start: State, events: seq<Event>)
    requires WellFormed(start) && Run(setup, start, events)
    ensures WellFormed(Final(start, events))
    decreases |events|
  {
    hide Step, WellFormed;
    if events != [] {
      StepKeepsWellFormed(setup, start, events[0].request, events[0].code, events[0].after);
      RunKeepsWellFormed(setup, events[0].after, events[1..]);
    }
  }
}
