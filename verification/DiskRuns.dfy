/** Files and directories stay where they belong: in every state of every run, whatever failed, no directory is
    where a file of the service belongs and no file where a directory does. On a reliable system every request
    of every run can therefore be answered from the disk and the request alone. */
module DiskRuns {
  import opened Paths
  import opened FileDeal
  import opened ServiceState
  import opened Places
  import opened UserSteps
  import opened ServiceRuns
  import opened Isolation
  import opened Readiness

  predicate IsUserDir(p: Path) {
    p.Child? && p.parent == Base && p.name.User?
  }

  predicate IsTypeDir(p: Path) {
    p.Child? && IsUserDir(p.parent) && p.name.Kind?
  }

  predicate IsStateFile(p: Path) {
    p.Child? && IsUserDir(p.parent) && p.name.StateFile?
  }

  /** The base directory is there, and what belongs in it and in the directories of users is a directory or a
      file as it should be, if it is there at all. */
  ghost predicate Orderly(d: Disk) {
    Base in d.dirs &&
    (forall p :: IsUserDir(p) || IsTypeDir(p) ==> p !in d.files) &&
    (forall p :: IsStateFile(p) || IsTemp(p) || IsOriginal(p) ==> p !in d.dirs)
  }

  /** Nothing has come that is not where it belongs. */
  ghost predicate KeepsOrder(a: Disk, b: Disk) {
    (Base in a.dirs ==> Base in b.dirs) &&
    (forall p :: IsUserDir(p) || IsTypeDir(p) ==> p in b.files ==> p in a.files) &&
    (forall p :: IsStateFile(p) || IsTemp(p) || IsOriginal(p) ==> p in b.dirs ==> p in a.dirs)
  }

  lemma OrderKept(a: Disk, b: Disk)
    requires Orderly(a) && KeepsOrder(a, b)
    ensures Orderly(b)
  {
  }

  lemma FixedPlaces(p: Path, u: int, t: WallpaperType)
    requires p == Base || IsUserDir(p) || IsTypeDir(p) || IsStateFile(p)
    ensures !Below(p, GetWallpaperDir(u, t)) && !IsTemp(p)
    ensures p == Base ==> !Inside(p, UserDir(u))
  {
    assert Depth(UserDir(u)) == 1 && Depth(GetWallpaperDir(u, t)) == 2;
    assert p != Base && !IsUserDir(p) ==> Depth(p.parent) == 1 by {
      if p != Base && !IsUserDir(p) { assert p.parent == UserDir(p.parent.name.id); }
    }
    if Below(p, GetWallpaperDir(u, t)) { InsideDepth(p.parent, GetWallpaperDir(u, t)); }
  }

  lemma DirsKeepOrder(a: Disk, b: Disk, z: Slot)
    requires KeepsDirs(a, b, z)
    ensures KeepsOrder(a, b)
  {
    forall p | p == Base || IsUserDir(p) || IsTypeDir(p) || IsStateFile(p)
      ensures p != StatePath(z.userId) ==> SameAt(a, b, p)
    {
      FixedPlaces(p, z.userId, z.wallpaperType);
    }
    assert Base != StatePath(z.userId) && SameAt(a, b, Base);
  }

  /** Only the tree of one user changed, and no directory came there but its three. */
  lemma UserKeepsOrder(a: Disk, b: Disk, u: int)
    requires forall p :: !Inside(p, UserDir(u)) && !IsTemp(p) ==> SameAt(a, b, p)
    requires OnlyUserDirsAdded(a, b, u)
    ensures KeepsOrder(a, b)
  {
    FixedPlaces(Base, u, System);
    forall p | (IsUserDir(p) || IsTypeDir(p)) && p in b.files ensures p in a.files {
      FixedPlaces(p, u, System);
      if Inside(p, UserDir(u)) { InTheTree(p, u); }
    }
  }

  lemma InTheTree(p: Path, u: int)
    requires (IsUserDir(p) || IsTypeDir(p)) && Inside(p, UserDir(u))
    ensures p in UserDirs(u)
  {
    assert !Inside(Base, UserDir(u));
    if IsTypeDir(p) {
      assert p.parent == UserDir(u);
      match p.name.wallpaperType
      case System => assert p == GetWallpaperDir(u, System);
      case Lockscreen => assert p == GetWallpaperDir(u, Lockscreen);
    }
  }

  lemma WipedKeepsOrder(setup: Setup, a: State, b: State, u: int)
    requires Wiped(setup, a, b, u) || InitOutcome(setup, a, b, u)
    ensures KeepsOrder(a.disk, b.disk)
  {
    hide InitDone, Inside, SameAt;
    if u >= 0 { UserKeepsOrder(a.disk, b.disk, u); }
  }

  lemma RemovedKeepsOrder(a: State, b: State, u: int)
    requires RemoveOutcome(a, b, u)
    ensures KeepsOrder(a.disk, b.disk)
  {
    FixedPlaces(Base, u, System);
    if u >= 0 {
      forall p ensures (p in b.disk.files ==> p in a.disk.files) && (p in b.disk.dirs ==> p in a.disk.dirs) {
        assert (Inside(p, UserDir(u)) && !Exists(b.disk, p)) || SameAt(a.disk, b.disk, p);
      }
      assert SameAt(a.disk, b.disk, Base);
    }
  }

  lemma ScaffoldKeepsOrder(a: Disk, b: Disk)
    requires ScaffoldOnly(a, b)
    ensures KeepsOrder(a, b)
  {
    forall p | IsStateFile(p) || IsTemp(p) || p == Base ensures SameAt(a, b, p) {
      assert !IsScaffold(p);
    }
    assert SameAt(a, b, Base);
    forall p | (IsUserDir(p) || IsTypeDir(p)) && p in b.files ensures p in a.files {
      assert !IsOriginal(p) && KeptAt(a, b, p);
    }
  }

  lemma DirsMadeKeepOrder(a: Disk, b: Disk, u: int, ok: bool)
    requires DirsMade(a, b, u, ok)
    ensures KeepsOrder(a, b)
  {
    UserDirsInside(u);
  }

  /** Every request and every account event, whatever fails, keeps files and directories where they belong. */
  lemma StepKeepsOrderly(setup: Setup, a: State, q: Request, code: ErrorCode, b: State)
    requires Step(setup, a, q, code, b) && Orderly(a.disk)
    ensures Orderly(b.disk)
  {
    StepKeepsOrder(setup, a, q, code, b);
    OrderKept(a.disk, b.disk);
  }

  lemma StepKeepsOrder(setup: Setup, a: State, q: Request, code: ErrorCode, b: State)
    requires Step(setup, a, q, code, b)
    ensures KeepsOrder(a.disk, b.disk)
  {
    hide SetOutcome, CustomOutcome, ResetOutcome, SetAllOutcome, InitOutcome, RemoveOutcome, ScaffoldOnly, DirsMade,
      KeepsOrder, KeepsDirs, IsTree, IsRebuilt, Wiped;
    SameKeepsOrder(a.disk);
    if ForSlot(q) {
      if code == NO_ERROR || !CanWipe(a, q) {
        StepKeepsDirs(setup, a, q, code, b);
        DirsKeepOrder(a.disk, b.disk, SlotOf(q));
      } else {
        FailedPictureKeepsOrder(setup, a, q, code, b);
      }
    } else {
      match q
      case Lookup(u, t, _) => if b != a { WipedKeepsOrder(setup, a, b, u); }
      case InitUser(u) => WipedKeepsOrder(setup, a, b, u);
      case RemoveUser(u) => RemovedKeepsOrder(a, b, u);
      case SwitchUser(u, active) => if b.disk != a.disk { DirsMadeKeepOrder(a.disk, b.disk, u, false); }
      case Restart(_) => ScaffoldKeepsOrder(a.disk, b.disk);
      case Boot(_) => ScaffoldKeepsOrder(a.disk, b.disk);
    }
  }

  lemma SameKeepsOrder(d: Disk)
    ensures KeepsOrder(d, d)
  {
  }

  lemma FailedPictureKeepsOrder(setup: Setup, a: State, q: Request, code: ErrorCode, b: State)
    requires q.Set? && Step(setup, a, q, code, b) && code != NO_ERROR
    ensures KeepsOrder(a.disk, b.disk)
  {
    hide SetDone, Refused, Spoiled, Wiped, IsTree, KeepsOrder, KeepsDirs;
    var u, t := q.userId, TypeOf(q.wallpaperType);
    if Wiped(setup, a, b, u) {
      WipedKeepsOrder(setup, a, b, u);
    } else if b == a {
      SameKeepsOrder(a.disk);
    } else {
      FailedKeepsDirs(setup, a, b, Slot(u, t));
      DirsKeepOrder(a.disk, b.disk, Slot(u, t));
    }
  }

  lemma {:induction false} RunKeepsOrderly(setup: Setup, start: State, events: seq<Event>)
    requires Run(setup, start, events) && Orderly(start.disk)
    ensures Orderly(Final(start, events).disk)
    decreases |events|
  {
    hide Step, Orderly;
    if events != [] {
      StepKeepsOrderly(setup, start, events[0].request, events[0].code, events[0].after);
      RunKeepsOrderly(setup, events[0].after, events[1..]);
    }
  }

  // ----- answers -----

  /** What a request for a slot answers on a reliable system: where the directory of the slot is missing, what
      would succeed fails, and a package fails as soon as its state file cannot be written. */
  function AnswerIn(d: Disk, q: Request): ErrorCode
    requires ForSlot(q)
  {
    if GetWallpaperDir(q.userId, TypeOf(q.wallpaperType)) in d.dirs then
      AnswerTo(q)
    else if q.Custom? && Precheck(q) == NO_ERROR && q.caller.sceneBoard && UserDir(q.userId) !in d.dirs then
      E_DEAL_FAILED
    else if AnswerTo(q) == NO_ERROR then
      E_DEAL_FAILED
    else
      AnswerTo(q)
  }

  /** In an orderly state every slot is ready or lacks its directory. */
  lemma ReadyOrMissing(d: Disk, u: int, t: WallpaperType)
    requires Orderly(d)
    ensures if GetWallpaperDir(u, t) in d.dirs then RequestSure(true, d, u, t) else SlotMissing(d, u, t)
  {
    assert IsStateFile(StatePath(u));
  }

  lemma OrderlyAnswer(setup: Setup, a: State, q: Request, code: ErrorCode, b: State)
    requires SureStep(setup, a, q, code, b) && ForSlot(q) && Orderly(a.disk)
    ensures code == AnswerIn(a.disk, q)
  {
    hide SetOutcome, CustomOutcome, ResetOutcome, SetAllOutcome, RequestSure, SlotMissing, IsTree, SureEffect,
      ListAnswer, MissingOutcome, ListRefused, SetPrecheck, CustomPrecheck, ResetPrecheck, SetAllPrecheck,
      DistinctScreens;
    var u, t := q.userId, TypeOf(q.wallpaperType);
    ReadyOrMissing(a.disk, u, t);
    if GetWallpaperDir(u, t) in a.disk.dirs {
      ReadyForBoth(setup, a, q);
    } else if q.Custom? {
      assert IsStateFile(StatePath(u)) && StatePath(u) !in a.disk.dirs;
    }
  }

  lemma ReadyForBoth(setup: Setup, a: State, q: Request)
    requires ForSlot(q) && RequestSure(true, a.disk, q.userId, TypeOf(q.wallpaperType))
    ensures Able(a.disk, q)
  {
  }

  /** Along every run on a reliable system that starts in order, each answer follows from the request and from
      whether the directory of its slot is there, whatever happened before. */
  lemma {:induction false} OrderlyRunAnswers(setup: Setup, start: State, events: seq<Event>, i: nat)
    requires SureRun(setup, start, events) && Orderly(start.disk) && i < |events| && ForSlot(events[i].request)
    ensures events[i].code == AnswerIn(Final(start, events[..i]).disk, events[i].request)
    decreases |events|
  {
    hide SureStep, Orderly, AnswerIn;
    var e, rest := events[0], events[1..];
    if i == 0 {
      OrderlyAnswer(setup, start, e.request, e.code, e.after);
    } else {
      SureIsStep(setup, start, e.request, e.code, e.after);
      StepKeepsOrderly(setup, start, e.request, e.code, e.after);
      OrderlyRunAnswers(setup, e.after, rest, i - 1);
      assert events[..i] == [e] + rest[..i - 1];
    }
  }

  // ----- who is ready -----

  /** The events that make both slots of a user ready: setting it up, a switch to it that finds no directory of
      it, the boot of its account, and a start for user 0. */
  predicate MakesReady(a: State, q: Request, u: int) {
    match q
    case InitUser(v) => v == u && u >= 0
    case SwitchUser(v, _) => v == u && u >= 0 && u != a.currentUserId && UserDir(u) !in a.disk.dirs
    case Boot(users) => u in users
    case Restart(_) => u == 0
    case _ => false
  }

  lemma OrderlyPlace(d: Disk, u: int)
    requires Orderly(d)
    ensures PlaceFor(d, u) && CanBeLaid(d, u) && (u >= 0 ==> CanSetUp(d, u))
    ensures UserDir(u) !in d.dirs ==> !Exists(d, UserDir(u))
  {
    assert IsUserDir(UserDir(u)) && IsTypeDir(GetWallpaperDir(u, System)) && IsTypeDir(GetWallpaperDir(u, Lockscreen));
  }

  /** On a reliable system in order, after such an event requests for the user find their directories. */
  lemma EventMakesReady(setup: Setup, a: State, q: Request, code: ErrorCode, b: State, u: int, t: WallpaperType)
    requires SureStep(setup, a, q, code, b) && Orderly(a.disk) && MakesReady(a, q, u)
    ensures RequestSure(true, b.disk, u, t)
  {
    hide Step, SureStep, Orderly, InitDone, RequestSure, SlotMissing;
    OrderlyPlace(a.disk, u);
    SureIsStep(setup, a, q, code, b);
    StepKeepsOrderly(setup, a, q, code, b);
    EventMakesDirs(setup, a, q, code, b, u, t);
    ReadyOrMissing(b.disk, u, t);
  }

  lemma EventMakesDirs(setup: Setup, a: State, q: Request, code: ErrorCode, b: State, u: int, t: WallpaperType)
    requires SureStep(setup, a, q, code, b) && MakesReady(a, q, u)
    requires PlaceFor(a.disk, u) && CanBeLaid(a.disk, u) && (u >= 0 ==> CanSetUp(a.disk, u))
    requires UserDir(u) !in a.disk.dirs ==> !Exists(a.disk, UserDir(u))
    ensures GetWallpaperDir(u, t) in b.disk.dirs
  {
    if q.Restart? { LaidOutIsLaid(a.disk, 0); }
    hide Step, Exists, PlaceFor, CanSetUp, SureRestart, Rebuild, LaidOut;
    assert GetWallpaperDir(u, t) in UserDirs(u);
    if q.InitUser? {
      assert Inside(GetWallpaperDir(u, t), UserDir(u)) by { assert Inside(UserDir(u), UserDir(u)); }
    }
  }

  /** Along every run on a reliable system that starts in order, from such an event for its user on, each request
      for a slot of that user is answered as it alone says until its account is removed, whatever came between. */
  lemma {:induction false} ReadyFromThenOn(setup: Setup, start: State, events: seq<Event>, u: int, i: nat)
    requires SureRun(setup, start, events) && Orderly(start.disk) && 0 < i < |events|
    requires MakesReady(start, events[0].request, u)
    requires forall j :: 0 < j < i ==> events[j].request != RemoveUser(u)
    requires ForSlot(events[i].request) && events[i].request.userId == u
    ensures events[i].code == AnswerTo(events[i].request)
  {
    var e, rest := events[0], events[1..];
    var q := events[i].request;
    SureIsStep(setup, start, e.request, e.code, e.after);
    StepKeepsOrderly(setup, start, e.request, e.code, e.after);
    EventMakesReady(setup, start, e.request, e.code, e.after, u, TypeOf(q.wallpaperType));
    hide SureStep, Orderly, RequestSure;
    forall j | 0 <= j < i - 1 ensures rest[j].request != RemoveUser(u) {
      assert rest[j] == events[j + 1];
    }
    StaysReady(setup, e.after, rest, u, i - 1);
  }

  /** On a reliable system in order everything but the removal of its user keeps a ready slot ready. */
  lemma OrderlyKeepsReady(setup: Setup, a: State, q: Request, code: ErrorCode, b: State, u: int, t: WallpaperType)
    requires SureStep(setup, a, q, code, b) && Orderly(a.disk) && RequestSure(true, a.disk, u, t)
    requires q != RemoveUser(u)
    ensures RequestSure(true, b.disk, u, t)
  {
    hide SureStep, Step, Orderly, RequestSure, SlotMissing;
    SureIsStep(setup, a, q, code, b);
    if !ForSlot(q) {
      EventKeepsReady(setup, a, q, code, b, u, t);
    } else if code == NO_ERROR || !CanWipe(a, q) {
      StepKeepsReady(setup, a, q, code, b, u, t);
    } else {
      FailedPictureKeepsReady(setup, a, q, code, b, u, t);
    }
  }

  lemma EventKeepsReady(setup: Setup, a: State, q: Request, code: ErrorCode, b: State, u: int, t: WallpaperType)
    requires !ForSlot(q) && SureStep(setup, a, q, code, b) && Orderly(a.disk) && RequestSure(true, a.disk, u, t)
    requires q != RemoveUser(u)
    ensures RequestSure(true, b.disk, u, t)
  {
    hide InitDone, RequestSure, IsRebuilt, IsTree, BothPresent, ScaffoldOnly, SureRestart, SureSwitch, UserGone, Laid,
      CanBeLaid, Orderly, CanSetUp, OnlyUserDirsAdded, DirsMade;
    match q
    case Lookup(v, _, _) =>
      if b != a {
        OrderlyPlace(a.disk, v);
        SetUpKeepsReady(setup, a, b, v, u, t);
      }
    case InitUser(v) =>
      if v >= 0 {
        OrderlyPlace(a.disk, v);
        SetUpKeepsReady(setup, a, b, v, u, t);
      }
    case RemoveUser(v) => if v >= 0 { OtherTreeKeepsReady(a.disk, b.disk, v, u, t); }
    case SwitchUser(v, _) => if b.disk != a.disk { MoreDirsKeepReady(a.disk, b.disk, v, u, t); }
    case Restart(_) => ScaffoldKeepsReady(a.disk, b.disk, u, t);
    case Boot(_) => ScaffoldKeepsReady(a.disk, b.disk, u, t);
  }

  lemma OtherTreeKeepsReady(a: Disk, b: Disk, v: int, u: int, t: WallpaperType)
    requires u != v && RequestSure(true, a, u, t)
    requires forall p :: !Inside(p, UserDir(v)) ==> SameAt(a, b, p)
    ensures RequestSure(true, b, u, t)
  {
    UserDirsInside(u);
    if Inside(GetWallpaperDir(u, t), UserDir(v)) { DistinctUsers(GetWallpaperDir(u, t), u, v); }
    if Inside(StatePath(u), UserDir(v)) { DistinctUsers(StatePath(u), u, v); }
    assert SameAt(a, b, GetWallpaperDir(u, t)) && SameAt(a, b, StatePath(u));
    forall p | IsTemp(p) ensures p !in b.dirs {
      TempsOutsideUsers(p, v);
      assert SameAt(a, b, p);
    }
  }

  lemma MoreDirsKeepReady(a: Disk, b: Disk, v: int, u: int, t: WallpaperType)
    requires DirsMade(a, b, v, false) && RequestSure(true, a, u, t)
    ensures RequestSure(true, b, u, t)
  {
  }

  lemma ScaffoldKeepsReady(a: Disk, b: Disk, u: int, t: WallpaperType)
    requires ScaffoldOnly(a, b) && RequestSure(true, a, u, t)
    ensures RequestSure(true, b, u, t)
  {
    var dir := GetWallpaperDir(u, t);
    assert !IsOriginal(dir) && KeptAt(a, b, dir);
    assert !IsScaffold(StatePath(u)) && SameAt(a, b, StatePath(u));
    forall p | IsTemp(p) ensures p !in b.dirs {
      assert !IsScaffold(p) && SameAt(a, b, p);
    }
  }

  lemma FailedPictureKeepsReady(setup: Setup, a: State, q: Request, code: ErrorCode, b: State, u: int,
                                t: WallpaperType)
    requires q.Set? && CanWipe(a, q) && SureStep(setup, a, q, code, b) && Orderly(a.disk) && code != NO_ERROR
    requires RequestSure(true, a.disk, u, t)
    ensures RequestSure(true, b.disk, u, t)
  {
    hide SetDone, Refused, Spoiled, RequestSure, SlotMissing, Orderly, IsTree, Wiped;
    var v, k := q.userId, TypeOf(q.wallpaperType);
    ReadyOrMissing(a.disk, v, k);
    if GetWallpaperDir(v, k) in a.disk.dirs {
      ReadyForBoth(setup, a, q);
      assert b == a;
    } else if Wiped(setup, a, b, v) && InitDone(setup, b, v) {
      WipedOutside(setup, a, b, v);
      SetUpKeepsReady(setup, a, b, v, u, t);
    } else if b != a {
      TempKeepsReady(a.disk, b.disk, u, t);
    }
  }

  lemma TempKeepsReady(a: Disk, b: Disk, u: int, t: WallpaperType)
    requires RequestSure(true, a, u, t) && b.dirs == a.dirs
    ensures RequestSure(true, b, u, t)
  {
  }

  lemma SetUpKeepsReady(setup: Setup, a: State, b: State, v: int, u: int, t: WallpaperType)
    requires forall p :: !Inside(p, UserDir(v)) && !IsTemp(p) ==> SameAt(a.disk, b.disk, p)
    requires OnlyUserDirsAdded(a.disk, b.disk, v) && InitDone(setup, b, v) && RequestSure(true, a.disk, u, t)
    ensures RequestSure(true, b.disk, u, t)
  {
    hide Rebuild;
    UserDirsInside(u);
    UserDirsInside(v);
    assert Inside(UserDir(u), UserDir(u)) && Inside(GetWallpaperDir(u, t), UserDir(u));
    forall p | IsTemp(p) ensures p !in b.disk.dirs {
      TempsOutsideUsers(p, v);
      assert p !in a.disk.dirs && p !in UserDirs(v);
    }
    if u != v {
      if Inside(GetWallpaperDir(u, t), UserDir(v)) { DistinctUsers(GetWallpaperDir(u, t), u, v); }
      if Inside(StatePath(u), UserDir(v)) { DistinctUsers(StatePath(u), u, v); }
      assert SameAt(a.disk, b.disk, GetWallpaperDir(u, t)) && SameAt(a.disk, b.disk, StatePath(u));
    }
  }

  lemma WipedOutside(setup: Setup, a: State, b: State, u: int)
    requires Wiped(setup, a, b, u)
    ensures forall p :: !Inside(p, UserDir(u)) && !IsTemp(p) ==> SameAt(a.disk, b.disk, p)
    ensures OnlyUserDirsAdded(a.disk, b.disk, u)
  {
    hide InitDone, IsTemp, SameAt, OnlyUserDirsAdded;
  }

  lemma {:induction false} StaysReady(setup: Setup, start: State, events: seq<Event>, u: int, i: nat)
    requires SureRun(setup, start, events) && Orderly(start.disk) && i < |events| && ForSlot(events[i].request)
    requires events[i].request.userId == u && RequestSure(true, start.disk, u, TypeOf(events[i].request.wallpaperType))
    requires forall j :: 0 <= j < i ==> events[j].request != RemoveUser(u)
    ensures events[i].code == AnswerTo(events[i].request)
    decreases |events|
  {
    hide SureStep, Orderly, RequestSure, AnswerTo;
    var e, rest := events[0], events[1..];
    if i == 0 {
      SureAnswer(setup, start, e.request, e.code, e.after);
    } else {
      SureIsStep(setup, start, e.request, e.code, e.after);
      StepKeepsOrderly(setup, start, e.request, e.code, e.after);
      OrderlyKeepsReady(setup, start, e.request, e.code, e.after, u, TypeOf(events[i].request.wallpaperType));
      forall j | 0 <= j < i - 1 ensures rest[j].request != RemoveUser(u) {
        assert rest[j] == events[j + 1];
      }
      StaysReady(setup, e.after, rest, u, i - 1);
    }
  }
}
