/** Ids and state files over whole runs: what no sequence of requests and failures can break. */
module RunInvariants {
  import opened Paths
  import opened FileDeal
  import opened StateFile
  import opened ServiceState
  import opened EntryFacts
  import opened ServiceRuns

  // ----- ids -----

  /** Until 2^31 ids have been issued, live entries have distinct ids, all drawn since start-up. */
  ghost predicate IdsDistinct(s: State) {
    s.issued <= 0x8000_0000 ==>
      (forall x: Slot :: x in s.entries ==> s.entries[x].wallpaperId < s.issued) &&
      (forall x: Slot, y: Slot :: x in s.entries && y in s.entries && x != y && s.entries[x].wallpaperId >= 0 ==>
         s.entries[x].wallpaperId != s.entries[y].wallpaperId)
  }

  /** From `a` to `b` no id was issued, or one, and only the entry of `z` carries it. */
  ghost predicate IdStep(a: State, b: State, z: Slot) {
    ((b.issued == a.issued && b.wallpaperId == a.wallpaperId) ||
     (b.issued == a.issued + 1 && b.wallpaperId == NextId(a.wallpaperId))) &&
    forall x: Slot :: x in b.entries ==>
      SameEntry(a, b, x) || b.entries[x].wallpaperId == -1 ||
      (x == z && b.issued == a.issued + 1 && b.entries[x].wallpaperId == b.wallpaperId)
  }

  lemma IdStepKeeps(a: State, b: State, z: Slot)
    requires WellFormed(a) && IdsDistinct(a) && IdStep(a, b, z)
    ensures IdsDistinct(b)
  {
    hide IsTree, EntryOk;
    NextIdCounts(a.issued);
    if b.issued <= 0x8000_0000 {
      assert b.issued == a.issued + 1 ==> b.wallpaperId == a.issued;
      forall x: Slot | x in b.entries
        ensures b.entries[x].wallpaperId < b.issued
        ensures b.entries[x].wallpaperId >= 0 ==>
          (SameEntry(a, b, x) && b.entries[x].wallpaperId < a.issued) ||
          (x == z && b.entries[x].wallpaperId == a.issued)
      {
        assert SameEntry(a, b, x) || b.entries[x].wallpaperId == -1 || x == z;
      }
    }
  }

  lemma SpoiledIdStep(setup: Setup, a: State, b: State, u: int, t: WallpaperType)
    requires Spoiled(setup, a, b, u, t) || Refused(setup, a, b, u)
    ensures IdStep(a, b, Slot(u, t))
  {
    hide SameAt, Below, StateKept, Rebuild;
    forall x: Slot | x in b.entries ensures SameEntry(a, b, x) || b.entries[x].wallpaperId == -1 {
      assert x in a.entries || IsFresh(b.entries[x], x);
    }
  }

  lemma WipedIdStep(setup: Setup, a: State, b: State, u: int, z: Slot)
    requires Wiped(setup, a, b, u)
    ensures IdStep(a, b, z)
  {
    hide Rebuild, SameAt, Inside, StateFileFits;
    forall x: Slot | x in b.entries ensures SameEntry(a, b, x) || b.entries[x].wallpaperId == -1 {
      RebuildIsFresh(setup, b.disk, u, x.wallpaperType);
      if x.userId == u && InitDone(setup, b, u) {
        assert x == Slot(u, x.wallpaperType) && b.Has(u, x.wallpaperType);
      }
    }
  }

  lemma SetDoneIdStep(setup: Setup, a: State, b: State, u: int, t: WallpaperType, res: ResourceType, bytes: Bytes)
    requires SetDone(setup, a, b, u, t, res, bytes)
    ensures IdStep(a, b, Slot(u, t))
  {
    hide Installed, PicturesFor;
    TwoSlots(u);
  }

  lemma SetIdStep(setup: Setup, a: State, b: State, u: int, allowed: bool, content: Bytes, wallpaperType: int,
                  length: int, res: ResourceType, code: ErrorCode)
    requires SetOutcome(setup, a, b, u, allowed, content, wallpaperType, length, res, code)
    ensures IdStep(a, b, Slot(u, TypeOf(wallpaperType)))
  {
    hide SetDone, Refused, Spoiled, Wiped;
    if content != [] && SetPrecheck(allowed, wallpaperType, length, res) == NO_ERROR {
      if code == NO_ERROR {
        SetDoneIdStep(setup, a, b, u, TypeOf(wallpaperType), res,
                      Overwrite(Content(a.disk, TMP), Buffered(content, length)));
      } else if code == E_DEAL_FAILED {
        if Wiped(setup, a, b, u) {
          WipedIdStep(setup, a, b, u, Slot(u, TypeOf(wallpaperType)));
        } else {
          SpoiledIdStep(setup, a, b, u, TypeOf(wallpaperType));
        }
      }
    }
  }

  lemma ResetIdStep(setup: Setup, a: State, b: State, u: int, t: WallpaperType)
    requires ResetDone(setup, a, b, u, t)
    ensures IdStep(a, b, Slot(u, t))
  {
    hide PicturesFor, SameAt, Below;
    TwoSlots(u);
  }

  lemma SetAllIdStep(setup: Setup, a: State, b: State, u: int, t: WallpaperType, items: seq<Item>)
    requires SetAllDone(setup, a, b, u, t, items)
    ensures IdStep(a, b, Slot(u, t))
  {
    hide SameAt, Below, DistinctScreens, PicturesSet;
  }

  lemma RebuiltIdStep(setup: Setup, a: State, b: State)
    requires b.issued == a.issued && b.wallpaperId == a.wallpaperId
    requires forall x: Slot :: x in b.entries ==> SameEntry(a, b, x) || IsRebuilt(setup, b, x)
    ensures IdStep(a, b, Slot(0, System))
  {
    hide PicturesFor;
    forall x: Slot | x in b.entries ensures SameEntry(a, b, x) || b.entries[x].wallpaperId == -1 {
      assert SameEntry(a, b, x) || IsRebuilt(setup, b, x);
    }
  }

  lemma InitIdStep(setup: Setup, a: State, b: State, u: int)
    requires InitOutcome(setup, a, b, u)
    ensures IdStep(a, b, Slot(0, System))
  {
    hide Rebuild, SameAt, Inside, StateFileFits;
    if u >= 0 {
      forall x: Slot | x in b.entries ensures SameEntry(a, b, x) || IsRebuilt(setup, b, x) {
        if x.userId == u && InitDone(setup, b, u) {
          assert x == Slot(u, x.wallpaperType) && b.Has(u, x.wallpaperType);
        }
      }
      RebuiltIdStep(setup, a, b);
    }
  }

  lemma CustomIdStep(setup: Setup, a: State, b: State, u: int, caller: Caller, content: Bytes, wallpaperType: int,
                     length: int, code: ErrorCode)
    requires WellFormed(a) && IdsDistinct(a) &&
             CustomOutcome(setup, a, b, u, caller, content, wallpaperType, length, code)
    requires IsTree(b.disk)
    ensures IdsDistinct(b)
  {
    hide Refused, SetOutcome, FillBoth, WellFormed, WithPackage, NewText, Fill, IsTree, IdsDistinct, IdStep, Rebuild;
    var t := TypeOf(wallpaperType);
    var z := Slot(u, t);
    if CustomPrecheck(caller, wallpaperType) == NO_ERROR {
      if !caller.sceneBoard {
        FillFacts(setup, a, u, t);
        FillIdStep(setup, a, u, t);
        IdStepKeeps(a, b, z);
      } else if Refused(setup, a, b, u) {
        SpoiledIdStep(setup, a, b, u, t);
        IdStepKeeps(a, b, z);
      } else {
        var m, n :| StateSaved(setup, a, m, u, t, RES_PACKAGE) && IsTree(m.disk) &&
                    SetOutcome(setup, m, n, u, caller.userAllowed, content, wallpaperType, length, RES_PACKAGE, code) &&
                    b == WithPackage(setup, a, n, u, t);
        PackageFacts(setup, a, n, u, t);
        FilledWellFormed(setup, a, m.disk, u);
        FillBothIdStep(setup, a, m.disk, u);
        IdStepKeeps(a, m, Slot(0, System));
        SetIdStep(setup, m, n, u, caller.userAllowed, content, wallpaperType, length, RES_PACKAGE, code);
        IdStepKeeps(m, n, z);
        SetWellFormed(setup, m, n, u, caller.userAllowed, content, wallpaperType, length, RES_PACKAGE, code);
        PackageIdStep(setup, a, n, u, t);
        IdStepKeeps(n, b, z);
      }
    }
  }

  lemma FillIdStep(setup: Setup, a: State, u: int, t: WallpaperType)
    ensures IdStep(a, Fill(setup, a, u, t), Slot(u, t))
  {
    hide PicturesFor;
  }

  lemma FillBothIdStep(setup: Setup, a: State, d: Disk, u: int)
    ensures IdStep(a, FillBoth(setup, a, u).(disk := d), Slot(0, System))
  {
    hide FillBoth, PicturesFor;
    FillBothFacts(setup, a, u);
    var b := FillBoth(setup, a, u).(disk := d);
    forall x: Slot | x in b.entries ensures SameEntry(a, b, x) || b.entries[x].wallpaperId == -1 {
      if x.userId == u {
        assert x == Slot(u, x.wallpaperType) && b.At(u, x.wallpaperType) == Current(setup, a, u, x.wallpaperType);
      } else {
        assert SameEntry(a, FillBoth(setup, a, u), x);
      }
    }
  }

  lemma PackageIdStep(setup: Setup, a: State, n: State, u: int, t: WallpaperType)
    ensures IdStep(n, WithPackage(setup, a, n, u, t), Slot(u, t))
  {
    hide WithPackage, Rebuild;
    PackageFacts(setup, a, n, u, t);
  }

  /** No request makes two live entries share an id. */
  lemma StepKeepsIds(setup: Setup, a: State, q: Request, code: ErrorCode, b: State)
    requires WellFormed(a) && IdsDistinct(a) && Step(setup, a, q, code, b)
    ensures IdsDistinct(b)
  {
    hide SetOutcome, CustomOutcome, Refused, Spoiled, ResetDone, SetAllDone, InitOutcome, IsTree, WellFormed,
      IdsDistinct,
      IdStep, Rebuild, ScaffoldOnly;
    match q
    case Set(u, allowed, content, t, length, res) =>
      SetIdStep(setup, a, b, u, allowed, content, t, length, res, code);
      IdStepKeeps(a, b, Slot(u, TypeOf(t)));
    case Custom(u, caller, content, t, length) => CustomIdStep(setup, a, b, u, caller, content, t, length, code);
    case Reset(u, caller, t) =>
      if b != a {
        if code == NO_ERROR {
          ResetIdStep(setup, a, b, u, TypeOf(t));
        } else {
          SpoiledIdStep(setup, a, b, u, TypeOf(t));
        }
        IdStepKeeps(a, b, Slot(u, TypeOf(t)));
      }
    case SetAll(u, caller, items, fdCount, t) =>
      if b != a {
        if code == NO_ERROR {
          SetAllIdStep(setup, a, b, u, TypeOf(t), items);
        } else {
          SpoiledIdStep(setup, a, b, u, TypeOf(t));
        }
        IdStepKeeps(a, b, Slot(u, TypeOf(t)));
      }
    case Lookup(u, t, _) =>
      if !a.Has(u, t) {
        InitIdStep(setup, a, b, u);
        IdStepKeeps(a, b, Slot(0, System));
      }
    case InitUser(u) =>
      InitIdStep(setup, a, b, u);
      IdStepKeeps(a, b, Slot(0, System));
    case RemoveUser(u) => RemovedIds(a, b, u);
    case SwitchUser(u, active) =>
      if b != a {
        RebuiltIdStep(setup, a, b);
        IdStepKeeps(a, b, Slot(0, System));
      }
    case Restart(active) => RestartedIds(setup, a, b, active);
    case Boot(users) =>
      forall x: Slot | x in b.entries ensures SameEntry(a, b, x) || IsRebuilt(setup, b, x) {
        assert x.userId in users || x.userId !in users;
      }
      RebuiltIdStep(setup, a, b);
      IdStepKeeps(a, b, Slot(0, System));
  }

  lemma RemovedIds(a: State, b: State, u: int)
    requires WellFormed(a) && IdsDistinct(a) && RemoveOutcome(a, b, u)
    ensures IdsDistinct(b)
  {
    hide WellFormed, IdsDistinct, SameAt, Inside;
    if u >= 0 {
      forall x: Slot | x in b.entries ensures SameEntry(a, b, x) {
        assert x.userId != u by {
          assert x == Slot(x.userId, x.wallpaperType) && !b.Has(u, x.wallpaperType);
        }
      }
      IdStepKeeps(a, b, Slot(0, System));
    }
  }

  lemma RestartedIds(setup: Setup, a: State, b: State, active: int)
    requires RestartOutcome(setup, a, b, active)
    ensures IdsDistinct(b)
  {
    hide PicturesFor, ScaffoldOnly;
    forall x: Slot | x in b.entries ensures b.entries[x].wallpaperId == -1 {
      assert IsRebuilt(setup, b, x);
    }
  }

  lemma WellFormedIds(s: State)
    requires WellFormed(s)
    ensures s.wallpaperId == IdAfter(s.issued)
    ensures forall x: Slot :: x in s.entries ==> -1 <= s.entries[x].wallpaperId <= INT32_MAX
  {
  }

  /** In every state of every run, ids in range; and no two live entries share an id before 2^31 were issued. */
  lemma {:induction false} RunKeepsIds(setup: Setup, start: State, events: seq<Event>)
    requires WellFormed(start) && IdsDistinct(start) && Run(setup, start, events)
    ensures var s := Final(start, events);
            IdsDistinct(s) && s.wallpaperId == IdAfter(s.issued) &&
            forall x: Slot :: x in s.entries ==> -1 <= s.entries[x].wallpaperId <= INT32_MAX
    decreases |events|
  {
    hide Step, IdsDistinct, WellFormed;
    WellFormedIds(start);
    if events != [] {
      StepKeepsWellFormed(setup, start, events[0].request, events[0].code, events[0].after);
      StepKeepsIds(setup, start, events[0].request, events[0].code, events[0].after);
      RunKeepsIds(setup, events[0].after, events[1..]);
    }
  }
}
