/** The state file over whole runs: never truncated, never with a stale tail. */
module StateFileRuns {
  import opened Paths
  import opened FileDeal
  import opened StateFile
  import opened ServiceState
  import opened Places
  import opened EntryFacts
  import opened SlotSteps
  import opened ListSteps
  import opened UserSteps
  import opened ServiceRuns

  ghost predicate AllFit(setup: Setup, d: Disk) {
    forall u :: StateFileFits(setup, d, u)
  }

  /** The state file of `u` holds one printed text and nothing after it, and names the types of both entries. */
  ghost predicate StateFileExact(setup: Setup, s: State, u: int) {
    BothPresent(s, u) && StatePath(u) in s.disk.files &&
    s.disk.files[StatePath(u)] == StateText(setup.template, s.At(u, System).resourceType,
                                            s.At(u, Lockscreen).resourceType)
  }

  /** What a request for user `u` may do to the state files. */
  ghost predicate FilesStep(setup: Setup, a: Disk, b: Disk, u: int) {
    (forall v :: v != u ==> SameAt(a, b, StatePath(v))) &&
    (StateFileFits(setup, a, u) ==> StateFileFits(setup, b, u))
  }

  lemma FilesStepKeeps(setup: Setup, a: Disk, b: Disk, u: int)
    requires AllFit(setup, a) && FilesStep(setup, a, b, u)
    ensures AllFit(setup, b)
  {
    forall v ensures StateFileFits(setup, b, v) {
      assert StateFileFits(setup, a, v) && (v != u ==> SameAt(a, b, StatePath(v)));
    }
  }

  lemma OtherStateFiles(u: int, v: int, t: WallpaperType)
    requires u != v
    ensures !Inside(StatePath(v), UserDir(u)) && !IsTemp(StatePath(v)) && !Below(StatePath(v), GetWallpaperDir(u, t))
    ensures StatePath(v) != StatePath(u)
  {
    Layout(v, t);
    Layout(u, t);
    if Inside(StatePath(v), UserDir(u)) { DistinctUsers(StatePath(v), u, v); }
  }

  lemma SpoiledFiles(setup: Setup, a: State, b: State, u: int, t: WallpaperType)
    requires Spoiled(setup, a, b, u, t) || Refused(setup, a, b, u)
    ensures FilesStep(setup, a.disk, b.disk, u)
  {
    hide Inside, Below, IsTemp, SameAt, StateFileFits, StateKept, Rebuild;
    KeptStateFits(setup, a.disk, b.disk, u);
    forall v | v != u ensures SameAt(a.disk, b.disk, StatePath(v)) {
      OtherStateFiles(u, v, t);
    }
  }

  lemma WipedFiles(setup: Setup, a: State, b: State, u: int)
    requires Wiped(setup, a, b, u)
    ensures FilesStep(setup, a.disk, b.disk, u)
  {
    hide Inside, IsTemp, SameAt, StateFileFits, InitDone;
    forall v | v != u ensures SameAt(a.disk, b.disk, StatePath(v)) {
      OtherStateFiles(u, v, System);
    }
  }

  lemma TextLength(setup: Setup, s: State, u: int, t: WallpaperType, res: ResourceType)
    ensures |NewText(setup, s, u, t, res)| == StateLength(setup.template)
  {
    hide Rebuild;
  }

  lemma OverwrittenFits(setup: Setup, a: Disk, b: Disk, u: int, text: Bytes)
    requires |text| == StateLength(setup.template)
    requires StatePath(u) in b.files && b.files[StatePath(u)] == Overwrite(Content(a, StatePath(u)), text)
    ensures StateFileFits(setup, a, u) ==> StateFileFits(setup, b, u) && b.files[StatePath(u)] == text
  {
    OverwriteExact(Content(a, StatePath(u)), text);
  }

  lemma SetDoneFiles(setup: Setup, a: State, b: State, u: int, t: WallpaperType, res: ResourceType, bytes: Bytes)
    requires SetDone(setup, a, b, u, t, res, bytes)
    ensures FilesStep(setup, a.disk, b.disk, u)
    ensures StateFileFits(setup, a.disk, u) ==> StateFileExact(setup, b, u)
  {
    hide Inside, Below, SameAt, StateFileFits, Overwrite, Rebuild, StateText;
    TextLength(setup, a, u, t, res);
    OverwrittenFits(setup, a.disk, b.disk, u, NewText(setup, a, u, t, res));
    SameTypeRebuilt(setup, a.disk, b.disk, u, OtherType(t));
    assert b.At(u, OtherType(t)).resourceType == Current(setup, a, u, OtherType(t)).resourceType;
    forall v | v != u ensures SameAt(a.disk, b.disk, StatePath(v)) {
      OtherStateFiles(u, v, t);
    }
  }

  lemma SameTypeRebuilt(setup: Setup, a: Disk, b: Disk, u: int, t: WallpaperType)
    ensures Rebuild(setup, a, u, t).resourceType == Rebuild(setup, b, u, t).resourceType
  {
  }

  lemma ResetDoneFiles(setup: Setup, a: State, b: State, u: int, t: WallpaperType)
    requires ResetDone(setup, a, b, u, t)
    ensures FilesStep(setup, a.disk, b.disk, u)
    ensures StateFileFits(setup, a.disk, u) ==> StateFileExact(setup, b, u)
  {
    hide Inside, Below, SameAt, StateFileFits, Overwrite, Rebuild, StateText, GetWallpaperDefaultPath;
    TextLength(setup, a, u, t, RES_DEFAULT);
    OverwrittenFits(setup, a.disk, b.disk, u, NewText(setup, a, u, t, RES_DEFAULT));
    SameTypeRebuilt(setup, a.disk, b.disk, u, OtherType(t));
    assert b.At(u, OtherType(t)).resourceType == Current(setup, a, u, OtherType(t)).resourceType;
    forall v | v != u ensures SameAt(a.disk, b.disk, StatePath(v)) {
      OtherStateFiles(u, v, t);
    }
  }

  lemma SetAllDoneFiles(setup: Setup, a: State, b: State, u: int, t: WallpaperType, items: seq<Item>)
    requires SetAllDone(setup, a, b, u, t, items)
    ensures forall v :: SameAt(a.disk, b.disk, StatePath(v))
  {
    hide Inside, Below, SameAt, DistinctScreens, PicturesSet;
    forall v ensures SameAt(a.disk, b.disk, StatePath(v)) {
      TempsAreTemps(items, v, t);
      Layout(u, t);
      if v != u { OtherStateFiles(u, v, t); }
    }
  }

  lemma SetFiles(setup: Setup, a: State, b: State, u: int, allowed: bool, content: Bytes, wallpaperType: int,
                 length: int, res: ResourceType, code: ErrorCode)
    requires SetOutcome(setup, a, b, u, allowed, content, wallpaperType, length, res, code)
    ensures FilesStep(setup, a.disk, b.disk, u)
  {
    hide SetDone, Refused, Spoiled, Wiped;
    if content != [] && SetPrecheck(allowed, wallpaperType, length, res) == NO_ERROR {
      if code == NO_ERROR {
        SetDoneFiles(setup, a, b, u, TypeOf(wallpaperType), res,
                     Overwrite(Content(a.disk, TMP), Buffered(content, length)));
      } else if code == E_DEAL_FAILED {
        if Wiped(setup, a, b, u) {
          WipedFiles(setup, a, b, u);
        } else {
          SpoiledFiles(setup, a, b, u, TypeOf(wallpaperType));
        }
      }
    }
  }

  lemma CustomFiles(setup: Setup, a: State, b: State, u: int, caller: Caller, content: Bytes, wallpaperType: int,
                    length: int, code: ErrorCode)
    requires AllFit(setup, a.disk) && CustomOutcome(setup, a, b, u, caller, content, wallpaperType, length, code)
    ensures AllFit(setup, b.disk)
  {
    hide Refused, SetOutcome, FillBoth, WithPackage, NewText, Fill, AllFit, FilesStep, Rebuild;
    var t := TypeOf(wallpaperType);
    if CustomPrecheck(caller, wallpaperType) == NO_ERROR {
      if !caller.sceneBoard {
        FillFacts(setup, a, u, t);
      } else if Refused(setup, a, b, u) {
        SpoiledFiles(setup, a, b, u, t);
        FilesStepKeeps(setup, a.disk, b.disk, u);
      } else {
        var m, n :| StateSaved(setup, a, m, u, t, RES_PACKAGE) && IsTree(m.disk) &&
                    SetOutcome(setup, m, n, u, caller.userAllowed, content, wallpaperType, length, RES_PACKAGE, code) &&
                    b == WithPackage(setup, a, n, u, t);
        TextLength(setup, a, u, t, RES_PACKAGE);
        SavedFiles(setup, a.disk, m.disk, u, NewText(setup, a, u, t, RES_PACKAGE));
        FilesStepKeeps(setup, a.disk, m.disk, u);
        SetFiles(setup, m, n, u, caller.userAllowed, content, wallpaperType, length, RES_PACKAGE, code);
        FilesStepKeeps(setup, m.disk, n.disk, u);
        PackageFacts(setup, a, n, u, t);
      }
    }
  }

  lemma SavedFiles(setup: Setup, a: Disk, b: Disk, u: int, text: Bytes)
    requires |text| == StateLength(setup.template) && Written(a, b, StatePath(u), text, true)
    ensures FilesStep(setup, a, b, u)
  {
    OverwrittenFits(setup, a, b, u, text);
  }

  lemma InitFiles(setup: Setup, a: State, b: State, u: int)
    requires InitOutcome(setup, a, b, u)
    ensures FilesStep(setup, a.disk, b.disk, u)
  {
    hide Inside, StateFileFits, InitDone;
    if u >= 0 {
      forall v | v != u ensures SameAt(a.disk, b.disk, StatePath(v)) {
        OtherStateFiles(u, v, System);
      }
    }
  }

  lemma RemoveFiles(setup: Setup, a: State, b: State, u: int)
    requires RemoveOutcome(a, b, u)
    ensures FilesStep(setup, a.disk, b.disk, u)
  {
    hide Inside;
    if u >= 0 {
      UserDirsInside(u);
      var p := StatePath(u);
      assert !Exists(b.disk, p) || SameAt(a.disk, b.disk, p);
      assert Content(b.disk, p) == [] || Content(b.disk, p) == Content(a.disk, p);
      forall v | v != u ensures SameAt(a.disk, b.disk, StatePath(v)) {
        OtherStateFiles(u, v, System);
      }
    }
  }

  lemma ScaffoldFiles(setup: Setup, a: Disk, b: Disk)
    requires ScaffoldOnly(a, b)
    ensures FilesStep(setup, a, b, 0)
  {
    assert SameAt(a, b, StatePath(0));
  }

  lemma StepKeepsFit(setup: Setup, a: State, q: Request, code: ErrorCode, b: State)
    requires AllFit(setup, a.disk) && Step(setup, a, q, code, b)
    ensures AllFit(setup, b.disk)
  {
    hide SetOutcome, CustomOutcome, Refused, Spoiled, ResetDone, SetAllDone, InitOutcome, RemoveOutcome, IsTree, AllFit,
      FilesStep, ScaffoldOnly, Rebuild;
    match q
    case Set(u, allowed, content, t, length, res) =>
      SetFiles(setup, a, b, u, allowed, content, t, length, res, code);
      FilesStepKeeps(setup, a.disk, b.disk, u);
    case Custom(u, caller, content, t, length) => CustomFiles(setup, a, b, u, caller, content, t, length, code);
    case Reset(u, caller, t) =>
      if b != a {
        if code == NO_ERROR {
          ResetDoneFiles(setup, a, b, u, TypeOf(t));
        } else {
          SpoiledFiles(setup, a, b, u, TypeOf(t));
        }
        FilesStepKeeps(setup, a.disk, b.disk, u);
      }
    case SetAll(u, caller, items, fdCount, t) =>
      if b != a {
        if code == NO_ERROR {
          SetAllDoneFiles(setup, a, b, u, TypeOf(t), items);
          SameFiles(setup, a.disk, b.disk, u);
        } else {
          SpoiledFiles(setup, a, b, u, TypeOf(t));
        }
        FilesStepKeeps(setup, a.disk, b.disk, u);
      }
    case Lookup(u, t, _) =>
      if !a.Has(u, t) {
        InitFiles(setup, a, b, u);
        FilesStepKeeps(setup, a.disk, b.disk, u);
      }
    case InitUser(u) =>
      InitFiles(setup, a, b, u);
      FilesStepKeeps(setup, a.disk, b.disk, u);
    case RemoveUser(u) =>
      RemoveFiles(setup, a, b, u);
      FilesStepKeeps(setup, a.disk, b.disk, u);
    case SwitchUser(u, active) =>
      if b != a {
        SwitchIsScaffold(setup, a, b, u, active);
        ScaffoldFiles(setup, a.disk, b.disk);
        FilesStepKeeps(setup, a.disk, b.disk, 0);
      }
    case Restart(active) =>
      ScaffoldFiles(setup, a.disk, b.disk);
      FilesStepKeeps(setup, a.disk, b.disk, 0);
    case Boot(users) =>
      ScaffoldFiles(setup, a.disk, b.disk);
      FilesStepKeeps(setup, a.disk, b.disk, 0);
  }

  lemma SameFiles(setup: Setup, a: Disk, b: Disk, u: int)
    requires forall v :: SameAt(a, b, StatePath(v))
    ensures FilesStep(setup, a, b, u)
  {
    assert SameAt(a, b, StatePath(u));
  }

  lemma {:induction false} RunKeepsFit(setup: Setup, start: State, events: seq<Event>)
    requires AllFit(setup, start.disk) && Run(setup, start, events)
    ensures AllFit(setup, Final(start, events).disk)
    decreases |events|
  {
    hide Step, AllFit;
    if events != [] {
      StepKeepsFit(setup, start, events[0].request, events[0].code, events[0].after);
      RunKeepsFit(setup, events[0].after, events[1..]);
    }
  }

  // ----- a package request -----

  lemma SavedNames(setup: Setup, a: State, m: State, u: int, t: WallpaperType, res: ResourceType)
    requires StateFileFits(setup, a.disk, u) && StateSaved(setup, a, m, u, t, res)
    ensures StatePath(u) in m.disk.files && m.disk.files[StatePath(u)] == NewText(setup, a, u, t, res)
    ensures BothPresent(m, u) && NewText(setup, m, u, t, res) == NewText(setup, a, u, t, res)
    ensures m.At(u, OtherType(t)).resourceType == Current(setup, a, u, OtherType(t)).resourceType
    ensures m.issued == a.issued
  {
    hide FillBoth, Rebuild;
    TextLength(setup, a, u, t, res);
    OverwrittenFits(setup, a.disk, m.disk, u, NewText(setup, a, u, t, res));
    FillBothFacts(setup, a, u);
    var f := FillBoth(setup, a, u);
    assert m.entries == f.entries && f.Has(u, System) && f.Has(u, Lockscreen);
    assert f.At(u, System) == Current(setup, a, u, System) && f.At(u, Lockscreen) == Current(setup, a, u, Lockscreen);
  }

  /** The inner set, whatever it answers, leaves the announced text and the other entry alone. */
  lemma InnerKeepsText(setup: Setup, m: State, n: State, u: int, allowed: bool, content: Bytes, wallpaperType: int,
                       length: int, code: ErrorCode)
    requires SetOutcome(setup, m, n, u, allowed, content, wallpaperType, length, RES_PACKAGE, code) && BothPresent(m, u)
    requires var p := StatePath(u);
             p in m.disk.files && m.disk.files[p] == NewText(setup, m, u, TypeOf(wallpaperType), RES_PACKAGE)
    ensures StatePath(u) in n.disk.files && n.disk.files[StatePath(u)] == m.disk.files[StatePath(u)]
    ensures n.Has(u, OtherType(TypeOf(wallpaperType)))
    ensures n.At(u, OtherType(TypeOf(wallpaperType))) == m.At(u, OtherType(TypeOf(wallpaperType)))
    ensures m.issued <= n.issued
  {
    hide NewText, Rebuild, SameAt, Below, Wiped;
    var t := TypeOf(wallpaperType);
    TextLength(setup, m, u, t, RES_PACKAGE);
    OverwriteExact(Content(m.disk, StatePath(u)), NewText(setup, m, u, t, RES_PACKAGE));
    assert m.Has(u, OtherType(t));
  }

  lemma PackageNames(setup: Setup, a: State, n: State, u: int, t: WallpaperType)
    requires StatePath(u) in n.disk.files && n.disk.files[StatePath(u)] == NewText(setup, a, u, t, RES_PACKAGE)
    requires n.Has(u, OtherType(t)) &&
             n.At(u, OtherType(t)).resourceType == Current(setup, a, u, OtherType(t)).resourceType
    ensures StateFileExact(setup, WithPackage(setup, a, n, u, t), u)
  {
    hide WithPackage, Rebuild, StateText;
    PackageFacts(setup, a, n, u, t);
    var b := WithPackage(setup, a, n, u, t);
    assert SameEntry(n, b, Slot(u, OtherType(t)));
    assert b.Has(u, OtherType(t)) && b.At(u, OtherType(t)) == n.At(u, OtherType(t));
  }

  /** Once a package entry is published, and the drawing of its id says so, the state file is exact,
      whatever the inner set answered. */
  lemma PublishedPackageIsExact(setup: Setup, a: State, b: State, u: int, caller: Caller, content: Bytes,
                                wallpaperType: int, length: int, code: ErrorCode)
    requires StateFileFits(setup, a.disk, u) && b.issued > a.issued
    requires CustomOutcome(setup, a, b, u, caller, content, wallpaperType, length, code)
    ensures StateFileExact(setup, b, u) && b.At(u, TypeOf(wallpaperType)).resourceType == RES_PACKAGE
  {
    hide Refused, SetOutcome, WithPackage, NewText, StateFileFits, StateSaved, FillBoth, Rebuild, StateFileExact;
    var t := TypeOf(wallpaperType);
    assert CustomPrecheck(caller, wallpaperType) == NO_ERROR;
    assert caller.sceneBoard by { FillFacts(setup, a, u, t); }
    assert !Refused(setup, a, b, u) by { RefusedIssuesNone(setup, a, b, u); }
    var m, n :| StateSaved(setup, a, m, u, t, RES_PACKAGE) && IsTree(m.disk) &&
                SetOutcome(setup, m, n, u, caller.userAllowed, content, wallpaperType, length, RES_PACKAGE, code) &&
                b == WithPackage(setup, a, n, u, t);
    SavedNames(setup, a, m, u, t, RES_PACKAGE);
    InnerKeepsText(setup, m, n, u, caller.userAllowed, content, wallpaperType, length, code);
    PackageNames(setup, a, n, u, t);
    PackageFacts(setup, a, n, u, t);
  }

  lemma RefusedIssuesNone(setup: Setup, a: State, b: State, u: int)
    ensures Refused(setup, a, b, u) ==> b.issued == a.issued
  {
  }

  lemma SucceededPackageIssues(setup: Setup, a: State, b: State, u: int, caller: Caller, content: Bytes,
                               wallpaperType: int, length: int)
    requires CustomOutcome(setup, a, b, u, caller, content, wallpaperType, length, NO_ERROR)
    ensures b.issued > a.issued
  {
    hide Refused, WithPackage, NewText, FillBoth, Rebuild, SetDone, Fill;
    var t := TypeOf(wallpaperType);
    var m, n :| StateSaved(setup, a, m, u, t, RES_PACKAGE) && IsTree(m.disk) &&
                SetOutcome(setup, m, n, u, caller.userAllowed, content, wallpaperType, length, RES_PACKAGE, NO_ERROR) &&
                b == WithPackage(setup, a, n, u, t);
    FillBothFacts(setup, a, u);
    SetIssues(setup, m, n, u, caller.userAllowed, content, wallpaperType, length, RES_PACKAGE, NO_ERROR);
    PackageFacts(setup, a, n, u, t);
  }

  /** A failed request of any other kind leaves an exact state file exact, and makes none exact, while the
      user has both entries. */
  lemma FailedKeepsStateExactly(setup: Setup, a: State, b: State, u: int, t: WallpaperType)
    requires BothPresent(a, u) && (Refused(setup, a, b, u) || Spoiled(setup, a, b, u, t))
    ensures StateFileExact(setup, b, u) <==> StateFileExact(setup, a, u)
  {
    hide SameAt, Below, Rebuild;
    assert b.Has(u, System) && b.Has(u, Lockscreen);
    assert |StateText(setup.template, b.At(u, System).resourceType, b.At(u, Lockscreen).resourceType)| > 0;
  }

  // ----- reading back -----

  /** However a run went, once a set, a package or a reset succeeds the state file is exactly the text that
      names both published types, and reading it back gives those types. */
  lemma SavedStateIsReadBack(setup: Setup, start: State, events: seq<Event>, q: Request, b: State)
    requires AllFit(setup, start.disk) && Run(setup, start, events)
    requires Step(setup, Final(start, events), q, NO_ERROR, b) && (q.Set? || q.Custom? || q.Reset?)
    ensures StateFileExact(setup, b, q.userId)
    ensures Parse(setup.template, FirstBytes(Content(b.disk, StatePath(q.userId)), 254)) ==
            Types(b.At(q.userId, System).resourceType, b.At(q.userId, Lockscreen).resourceType)
  {
    hide Run, AllFit, Parse, StateText, SetDone, ResetDone, CustomOutcome, StateFileExact;
    var a := Final(start, events);
    RunKeepsFit(setup, start, events);
    assert StateFileFits(setup, a.disk, q.userId) by { FitsAll(setup, a.disk, q.userId); }
    match q {
      case Set(u, _, content, t, length, res) =>
        SetDoneFiles(setup, a, b, u, TypeOf(t), res, Overwrite(Content(a.disk, TMP), Buffered(content, length)));
      case Custom(u, caller, content, t, length) =>
        SucceededPackageIssues(setup, a, b, u, caller, content, t, length);
        PublishedPackageIsExact(setup, a, b, u, caller, content, t, length, NO_ERROR);
      case Reset(u, _, t) =>
        ResetDoneFiles(setup, a, b, u, TypeOf(t));
      case _ =>
    }
    ExactIsReadBack(setup, b, q.userId);
  }

  lemma ExactIsReadBack(setup: Setup, b: State, u: int)
    requires StateFileExact(setup, b, u)
    ensures Parse(setup.template, FirstBytes(Content(b.disk, StatePath(u)), 254)) ==
            Types(b.At(u, System).resourceType, b.At(u, Lockscreen).resourceType)
  {
    hide Parse, StateText;
    var home, lock := b.At(u, System).resourceType, b.At(u, Lockscreen).resourceType;
    ParseUndoesPrint(setup.template, home, lock, "");
    assert StateText(setup.template, home, lock) + "" == StateText(setup.template, home, lock);
  }

  lemma FitsAll(setup: Setup, d: Disk, u: int)
    requires AllFit(setup, d)
    ensures StateFileFits(setup, d, u)
  {
  }

  /** SetAllWallpapers does not save: an exact state file stays exact precisely when the slot already was a picture. */
  lemma SetAllKeepsStateFile(setup: Setup, a: State, b: State, u: int, t: WallpaperType, items: seq<Item>)
    requires StateFileExact(setup, a, u) && SetAllDone(setup, a, b, u, t, items)
    ensures StateFileExact(setup, b, u) <==> a.At(u, t).resourceType == RES_PICTURE
  {
    hide SameAt, Below, DistinctScreens, PicturesSet, StateText;
    SetAllDoneFiles(setup, a, b, u, t, items);
    assert SameEntry(a, b, Slot(u, OtherType(t)));
    assert SameAt(a.disk, b.disk, StatePath(u));
    StateFileUnchanged(a.disk, b.disk, u);
    var x := setup.template;
    var h, l := a.At(u, System).resourceType, a.At(u, Lockscreen).resourceType;
    var h', l' := b.At(u, System).resourceType, b.At(u, Lockscreen).resourceType;
    TextsDiffer(x, h, l, h', l');
  }

  lemma StateFileUnchanged(a: Disk, b: Disk, u: int)
    requires SameAt(a, b, StatePath(u)) && StatePath(u) in a.files
    ensures StatePath(u) in b.files && b.files[StatePath(u)] == a.files[StatePath(u)]
  {
  }

  lemma TextsDiffer(x: Template, h: ResourceType, l: ResourceType, h': ResourceType, l': ResourceType)
    ensures StateText(x, h, l) == StateText(x, h', l') <==> h == h' && l == l'
  {
    hide Parse, StateText;
    ParseUndoesPrint(x, h, l, "");
    ParseUndoesPrint(x, h', l', "");
    assert StateText(x, h, l) + "" == StateText(x, h, l);
    assert StateText(x, h', l') + "" == StateText(x, h', l');
  }
}
