/** On a reliable system requests stay answerable: setting up a user makes its slots ready, a request leaves
    every ready slot ready, whatever it answers, and so over a whole run every answer follows from its request. */
module Readiness {
  import opened Paths
  import opened FileDeal
  import opened StateFile
  import opened ServiceState
  import opened Places
  import opened EntryFacts
  import opened ListSteps
  import opened ServiceRuns
  import opened Isolation

  /** Setting up a user makes both of its slots ready. */
  lemma InitMakesReady(setup: Setup, b: State, u: int, t: WallpaperType)
    requires InitDone(setup, b, u) && TempsReady(b.disk)
    ensures RequestSure(true, b.disk, u, t)
  {
    hide Rebuild;
    UserDirsInside(u);
    assert Inside(GetWallpaperDir(u, t), UserDir(u));
  }

  /** Only what lies below the directory of `z`, state files and temporary files may differ, and no directory
      came. */
  ghost predicate KeepsDirs(a: Disk, b: Disk, z: Slot) {
    (forall p :: !Below(p, GetWallpaperDir(z.userId, z.wallpaperType)) && !IsTemp(p) && p != StatePath(z.userId) ==>
       SameAt(a, b, p)) &&
    b.dirs <= a.dirs
  }

  lemma NotBelowSlot(u: int, t: WallpaperType, z: Slot)
    ensures var dir := GetWallpaperDir(z.userId, z.wallpaperType);
            !Below(GetWallpaperDir(u, t), dir) && !Below(StatePath(u), dir)
  {
    var dir := GetWallpaperDir(z.userId, z.wallpaperType);
    assert Depth(UserDir(u)) == 1 && Depth(dir) == 2 by { assert Depth(UserDir(z.userId)) == 1; }
    if Inside(UserDir(u), dir) {
      InsideDepth(UserDir(u), dir);
    }
  }

  lemma KeptReady(a: Disk, b: Disk, z: Slot, u: int, t: WallpaperType)
    requires KeepsDirs(a, b, z) && RequestSure(true, a, u, t)
    ensures RequestSure(true, b, u, t)
  {
    var dir, state := GetWallpaperDir(u, t), StatePath(u);
    Layout(u, t);
    Layout(z.userId, z.wallpaperType);
    NotBelowSlot(u, t, z);
    assert SameAt(a, b, dir);
    assert u != z.userId ==> SameAt(a, b, state);
  }

  lemma SetKeepsDirs(setup: Setup, a: State, b: State, z: Slot, res: ResourceType, bytes: Bytes)
    requires SetDone(setup, a, b, z.userId, z.wallpaperType, res, bytes) && IsTree(b.disk)
    ensures KeepsDirs(a.disk, b.disk, z)
  {
    hide Rebuild;
    Layout(z.userId, z.wallpaperType);
    forall p | p in b.disk.dirs ensures p in a.disk.dirs {
      assert p != TMP && p != StatePath(z.userId);
      assert Below(p, GetWallpaperDir(z.userId, z.wallpaperType)) || SameAt(a.disk, b.disk, p);
    }
  }

  lemma ResetKeepsDirs(setup: Setup, a: State, b: State, z: Slot)
    requires ResetDone(setup, a, b, z.userId, z.wallpaperType) && IsTree(b.disk)
    ensures KeepsDirs(a.disk, b.disk, z)
  {
    hide Rebuild;
    Layout(z.userId, z.wallpaperType);
    forall p | p in b.disk.dirs ensures p in a.disk.dirs {
      assert Below(p, GetWallpaperDir(z.userId, z.wallpaperType)) || SameAt(a.disk, b.disk, p);
    }
  }

  lemma SetAllKeepsDirs(setup: Setup, a: State, b: State, z: Slot, items: seq<Item>)
    requires SetAllDone(setup, a, b, z.userId, z.wallpaperType, items) && IsTree(b.disk)
    ensures KeepsDirs(a.disk, b.disk, z)
  {
    hide PicturesSet;
    Layout(z.userId, z.wallpaperType);
    TempsAreTemps(items, z.userId, z.wallpaperType);
    forall p | p in b.disk.dirs ensures p in a.disk.dirs {
      assert !IsTempOf(items, p) && !IsTargetOf(items, z.userId, z.wallpaperType, p);
      assert SameAt(a.disk, b.disk, p);
    }
  }

  lemma KeepsTransitive(a: Disk, b: Disk, c: Disk, z: Slot)
    requires KeepsDirs(a, b, z) && KeepsDirs(b, c, z)
    ensures KeepsDirs(a, c, z)
  {
    forall p | !Below(p, GetWallpaperDir(z.userId, z.wallpaperType)) && !IsTemp(p) && p != StatePath(z.userId)
      ensures SameAt(a, c, p)
    {
      assert SameAt(a, b, p) && SameAt(b, c, p);
    }
  }

  lemma FailedKeepsDirs(setup: Setup, a: State, b: State, z: Slot)
    requires Refused(setup, a, b, z.userId) || Spoiled(setup, a, b, z.userId, z.wallpaperType)
    ensures KeepsDirs(a.disk, b.disk, z)
  {
    hide Rebuild, StateKept, SameAt;
  }

  lemma OutcomeKeepsDirs(setup: Setup, a: State, b: State, u: int, allowed: bool, content: Bytes, wallpaperType: int,
                         length: int, res: ResourceType, code: ErrorCode)
    requires SetOutcome(setup, a, b, u, allowed, content, wallpaperType, length, res, code) && IsTree(b.disk)
    requires code == NO_ERROR || a.Has(u, TypeOf(wallpaperType)) || !res.RES_PICTURE?
    ensures KeepsDirs(a.disk, b.disk, Slot(u, TypeOf(wallpaperType)))
  {
    hide SetDone, Refused, Spoiled, Wiped, IsTree;
    var z := Slot(u, TypeOf(wallpaperType));
    if content != [] && SetPrecheck(allowed, wallpaperType, length, res) == NO_ERROR {
      if code == NO_ERROR {
        SetKeepsDirs(setup, a, b, z, res, Overwrite(Content(a.disk, TMP), Buffered(content, length)));
      } else if code == E_DEAL_FAILED {
        FailedKeepsDirs(setup, a, b, z);
      }
    }
  }

  /** A request for a slot disturbs directories of no other slot, whatever it answers, unless it can set its
      user up afresh. */
  lemma StepKeepsDirs(setup: Setup, a: State, q: Request, code: ErrorCode, b: State)
    requires ForSlot(q) && Step(setup, a, q, code, b) && (code == NO_ERROR || !CanWipe(a, q))
    ensures KeepsDirs(a.disk, b.disk, SlotOf(q))
  {
    hide SetOutcome, SetDone, ResetDone, SetAllDone, Refused, Spoiled, RequestSure, KeepsDirs, IsTree, CustomOutcome;
    var z := SlotOf(q);
    SameKeepsDirs(a.disk, z);
    match q {
      case Set(v, allowed, content, wallpaperType, length, res) =>
        OutcomeKeepsDirs(setup, a, b, v, allowed, content, wallpaperType, length, res, code);
      case Custom(v, caller, content, wallpaperType, length) =>
        CustomKeepsDirs(setup, a, b, v, caller, content, wallpaperType, length, code);
      case Reset(_, _, _) =>
        if b != a {
          if code == NO_ERROR { ResetKeepsDirs(setup, a, b, z); } else { FailedKeepsDirs(setup, a, b, z); }
        }
      case SetAll(_, _, items, _, _) =>
        if b != a {
          if code == NO_ERROR { SetAllKeepsDirs(setup, a, b, z, items); } else { FailedKeepsDirs(setup, a, b, z); }
        }
      case _ =>
    }
  }

  /** A request keeps every ready slot of every user ready, whatever it answers, unless it can set its user
      up afresh. */
  lemma StepKeepsReady(setup: Setup, a: State, q: Request, code: ErrorCode, b: State, u: int, t: WallpaperType)
    requires ForSlot(q) && Step(setup, a, q, code, b) && RequestSure(true, a.disk, u, t)
    requires code == NO_ERROR || !CanWipe(a, q)
    ensures RequestSure(true, b.disk, u, t)
  {
    hide Step, RequestSure, KeepsDirs;
    StepKeepsDirs(setup, a, q, code, b);
    KeptReady(a.disk, b.disk, SlotOf(q), u, t);
  }

  lemma SameKeepsDirs(d: Disk, z: Slot)
    ensures KeepsDirs(d, d, z)
  {
  }

  lemma CustomKeepsDirs(setup: Setup, a: State, b: State, u: int, caller: Caller, content: Bytes, wallpaperType: int,
                        length: int, code: ErrorCode)
    requires CustomOutcome(setup, a, b, u, caller, content, wallpaperType, length, code) && IsTree(b.disk)
    ensures KeepsDirs(a.disk, b.disk, Slot(u, TypeOf(wallpaperType)))
  {
    hide SetOutcome, Refused, IsTree, WithPackage, NewText, FillBoth, Fill, KeepsDirs, StateSaved;
    var t := TypeOf(wallpaperType);
    var z := Slot(u, t);
    SameKeepsDirs(a.disk, z);
    FillFacts(setup, a, u, t);
    if CustomPrecheck(caller, wallpaperType) == NO_ERROR && caller.sceneBoard {
      if Refused(setup, a, b, u) {
        FailedKeepsDirs(setup, a, b, z);
      } else {
        var m, n :| StateSaved(setup, a, m, u, t, RES_PACKAGE) && IsTree(m.disk) &&
                    SetOutcome(setup, m, n, u, caller.userAllowed, content, wallpaperType, length, RES_PACKAGE, code) &&
                    b == WithPackage(setup, a, n, u, t);
        PackageFacts(setup, a, n, u, t);
        SavedKeepsDirs(setup, a, m, z);
        OutcomeKeepsDirs(setup, m, n, u, caller.userAllowed, content, wallpaperType, length, RES_PACKAGE, code);
        KeepsTransitive(a.disk, m.disk, n.disk, z);
      }
    }
  }

  lemma SavedKeepsDirs(setup: Setup, a: State, m: State, z: Slot)
    requires StateSaved(setup, a, m, z.userId, z.wallpaperType, RES_PACKAGE)
    ensures KeepsDirs(a.disk, m.disk, z)
  {
    hide NewText, FillBoth;
  }

  // ----- whole runs on a reliable system -----

  ghost predicate SureRun(setup: Setup, start: State, events: seq<Event>)
    decreases |events|
  {
    events == [] ||
    (SureStep(setup, start, events[0].request, events[0].code, events[0].after) &&
     SureRun(setup, events[0].after, events[1..]))
  }

  /** Every request of the run is for a slot whose directories are there. */
  ghost predicate AllReady(d: Disk, events: seq<Event>) {
    forall i :: 0 <= i < |events| ==> ReadyFor(d, events[i].request)
  }

  ghost predicate ReadyFor(d: Disk, q: Request) {
    ForSlot(q) && RequestSure(true, d, q.userId, TypeOf(q.wallpaperType))
  }

  /** A request for a ready slot keeps every ready slot ready. */
  lemma SureKeepsReady(setup: Setup, a: State, q: Request, code: ErrorCode, b: State, r: Request)
    requires SureStep(setup, a, q, code, b) && ReadyFor(a.disk, q) && ReadyFor(a.disk, r)
    ensures ReadyFor(b.disk, r)
  {
    if code != NO_ERROR && CanWipe(a, q) {
      assert b == a;
    } else {
      StepKeepsReady(setup, a, q, code, b, r.userId, TypeOf(r.wallpaperType));
    }
  }

  lemma SureKeepsAllReady(setup: Setup, a: State, q: Request, code: ErrorCode, b: State, events: seq<Event>)
    requires SureStep(setup, a, q, code, b) && ReadyFor(a.disk, q) && AllReady(a.disk, events)
    ensures AllReady(b.disk, events)
  {
    hide SureStep, ReadyFor;
    forall i | 0 <= i < |events| ensures ReadyFor(b.disk, events[i].request) {
      SureKeepsReady(setup, a, q, code, b, events[i].request);
    }
  }

  /** Along a whole run on a reliable system, every answer is what its request alone says, whatever the
      requests before it answered. */
  lemma {:induction false} SureRunAnswers(setup: Setup, start: State, events: seq<Event>)
    requires SureRun(setup, start, events) && AllReady(start.disk, events)
    ensures forall i :: 0 <= i < |events| ==> events[i].code == AnswerTo(events[i].request)
    ensures AllReady(Final(start, events).disk, events)
    decreases |events|
  {
    hide SureStep, ReadyFor, AnswerTo;
    if events != [] {
      var e, rest := events[0], events[1..];
      SureAnswer(setup, start, e.request, e.code, e.after);
      SureKeepsAllReady(setup, start, e.request, e.code, e.after, events);
      forall i | 0 <= i < |rest| ensures ReadyFor(e.after.disk, rest[i].request) {
        assert rest[i] == events[i + 1];
      }
      SureRunAnswers(setup, e.after, rest);
      forall i | 0 <= i < |events| ensures events[i].code == AnswerTo(events[i].request) {
        assert i > 0 ==> events[i] == rest[i - 1];
      }
      LastReady(setup, start, events);
    }
  }

  lemma SureAnswer(setup: Setup, a: State, q: Request, code: ErrorCode, b: State)
    requires SureStep(setup, a, q, code, b) && ReadyFor(a.disk, q)
    ensures code == AnswerTo(q)
  {
  }

  lemma {:induction false} LastReady(setup: Setup, start: State, events: seq<Event>)
    requires SureRun(setup, start, events) && AllReady(start.disk, events)
    ensures AllReady(Final(start, events).disk, events)
  {
    LaterReady(setup, start, events, events);
  }

  lemma {:induction false} LaterReady(setup: Setup, start: State, events: seq<Event>, others: seq<Event>)
    requires SureRun(setup, start, events) && AllReady(start.disk, events) && AllReady(start.disk, others)
    ensures AllReady(Final(start, events).disk, others)
    decreases |events|
  {
    hide SureStep, ReadyFor;
    if events != [] {
      var e, rest := events[0], events[1..];
      SureKeepsAllReady(setup, start, e.request, e.code, e.after, events);
      SureKeepsAllReady(setup, start, e.request, e.code, e.after, others);
      forall i | 0 <= i < |rest| ensures ReadyFor(e.after.disk, rest[i].request) {
        assert rest[i] == events[i + 1];
      }
      LaterReady(setup, e.after, rest, others);
    }
  }
}
