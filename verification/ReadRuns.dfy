/** What a read can destroy: a user without entries is set up afresh by the first read of it. That happens
    between a restart and the boot of the accounts, and never from the boot of an account on. */
module ReadRuns {
  import opened Paths
  import opened FileDeal
  import opened StateFile
  import opened ServiceState
  import opened Places
  import opened EntryFacts
  import opened UserSteps
  import opened ServiceRuns
  import opened Isolation

  // ----- between restart and boot -----

  /** A restart keeps the files of every user, leftover originals excepted. */
  lemma RestartKeepsFiles(setup: Setup, a: State, active: int, m: State, b: Disk, u: int)
    requires RestartOutcome(setup, a, m, active)
    ensures UserFilesKept(a.disk, b, u) <==> UserFilesKept(m.disk, b, u)
    ensures UserEmpty(a.disk, u) <==> UserEmpty(m.disk, u)
  {
    hide Rebuild, BothPresent, IsScaffold;
    forall p | Below(p, UserDir(u)) && !IsOriginal(p)
      ensures (p in a.disk.files <==> p in m.disk.files) && (p in m.disk.files ==> a.disk.files[p] == m.disk.files[p])
    {
      assert KeptAt(a.disk, m.disk, p);
    }
  }

  lemma RestartedHas(setup: Setup, a: State, active: int, m: State, u: int, t: WallpaperType)
    requires RestartOutcome(setup, a, m, active) && SureRestart(a, m, active)
    ensures m.Has(u, t) <==> u == 0 || (u == active && Speaks(a.disk, active))
  {
    hide Rebuild, Speaks;
    if m.Has(u, t) { assert Slot(u, t) in m.entries; }
    assert u == 0 ==> m.Has(u, t) by { assert t == System || t == Lockscreen; }
  }

  /** On a reliable system, the first read after a restart keeps the files of its user if and only if the user
      is user 0, or was active with a readable state file, or the id is negative, or there are no files. All
      of this is known before the restart. */
  lemma ReadAfterRestartExactly(setup: Setup, a: State, active: int, c: ErrorCode, m: State, q: Request,
                                code: ErrorCode, b: State)
    requires SureStep(setup, a, Restart(active), c, m) && q.Lookup? && SureStep(setup, m, q, code, b)
    ensures UserFilesKept(a.disk, b.disk, q.userId) <==>
            q.userId <= 0 || (q.userId == active && Speaks(a.disk, active)) || UserEmpty(a.disk, q.userId)
  {
    var u, t := q.userId, q.slotType;
    SureRestarted(setup, a, active, c, m);
    hide SureStep, CanWipe, RestartOutcome, SureRestart, Speaks, UserFilesKept, UserEmpty, IsTree;
    RestartedHas(setup, a, active, m, u, t);
    RestartKeepsFiles(setup, a, active, m, b.disk, u);
    ReadKeepsExactly(setup, m, q, code, b);
    assert CanWipe(m, q) <==> !m.Has(u, t) by { ReadWipes(m, q); }
  }

  lemma ReadWipes(a: State, q: Request)
    requires q.Lookup?
    ensures CanWipe(a, q) <==> !a.Has(q.userId, q.slotType)
  {
  }

  function TwoUsers(): Disk {
    Disk({Base} + UserDirs(0) + UserDirs(100),
         map[PicturePath(100, System, Normal, Port) := "home", PicturePath(100, Lockscreen, Normal, Port) := "lock"])
  }

  function Indexed(setup: Setup, d: Disk, u: int): imap<Slot, WallpaperData> {
    imap[Slot(u, System) := Rebuild(setup, d, u, System), Slot(u, Lockscreen) := Rebuild(setup, d, u, Lockscreen)]
  }

  /** So it happens, with every directory there: after a restart, and before the boot of the accounts, a read of
      the home screen of user 100 deletes the pictures of both screens. */
  lemma ReadLosesPictures(setup: Setup) returns (a: State, m: State, q: Request, b: State)
    ensures WellFormed(a) && BothPresent(a, 100) && q.Lookup? && SlotOf(q) == Slot(100, System)
    ensures forall k :: UserDirs(100) <= a.disk.dirs && Exists(a.disk, PicturePath(100, k, Normal, Port))
    ensures SureStep(setup, a, Restart(0), NO_ERROR, m) && SureStep(setup, m, q, NO_ERROR, b)
    ensures forall c, m', c', b', k ::
              SureStep(setup, a, Restart(0), c, m') && SureStep(setup, m', q, c', b') ==>
                !Exists(b'.disk, PicturePath(100, k, Normal, Port))
  {
    var d := TwoUsers();
    a := State(d, Indexed(setup, d, 0) + Indexed(setup, d, 100), -1, 0, 100);
    m := State(d, Indexed(setup, d, 0), -1, 0, 0);
    q := Lookup(100, System, ReadPicture);
    var e := d.(files := map[]);
    b := m.(disk := e, entries := m.entries + Indexed(setup, e, 100));
    TwoUsersFit(setup, a);
    Restarted(setup, a, m);
    SetUpOnRead(setup, m, q, b);
    hide TwoUsers, Indexed, SureStep, WellFormed;
    forall c, m', c', b', k | SureStep(setup, a, Restart(0), c, m') && SureStep(setup, m', q, c', b')
      ensures !Exists(b'.disk, PicturePath(100, k, Normal, Port))
    {
      ReadAlwaysLoses(setup, a, c, m', q, c', b', k);
    }
  }

  lemma TwoUsersFit(setup: Setup, a: State)
    requires a == State(TwoUsers(), Indexed(setup, TwoUsers(), 0) + Indexed(setup, TwoUsers(), 100), -1, 0, 100)
    ensures WellFormed(a) && BothPresent(a, 100)
    ensures forall k :: UserDirs(100) <= a.disk.dirs && Exists(a.disk, PicturePath(100, k, Normal, Port))
    ensures Base in a.disk.dirs && UserDir(100) !in a.disk.files && Laid(a.disk, 0)
  {
    TwoUsersDisk();
    UserZeroIsLaid();
    IndexedFits(setup, a.disk, 0);
    IndexedFits(setup, a.disk, 100);
    hide TwoUsers, Indexed, IsTree, EntryOk, Laid;
    assert BothPresent(a, 100);
  }

  lemma IndexedFits(setup: Setup, d: Disk, u: int)
    ensures var entries := Indexed(setup, d, u);
            (forall k :: Slot(u, k) in entries && entries[Slot(u, k)] == Rebuild(setup, d, u, k)) &&
            (forall x: Slot :: x in entries ==> x.userId == u && EntryOk(entries[x], x))
  {
    RebuildIsFresh(setup, d, u, System);
    RebuildIsFresh(setup, d, u, Lockscreen);
    hide Rebuild, EntryOk;
    forall k ensures Slot(u, k) in Indexed(setup, d, u) && Indexed(setup, d, u)[Slot(u, k)] == Rebuild(setup, d, u, k) {
      assert k == System || k == Lockscreen;
    }
  }

  lemma UserZeroIsLaid()
    ensures Laid(TwoUsers(), 0)
  {
  }

  lemma TwoUsersDisk()
    ensures var d := TwoUsers();
            IsTree(d) && Base in d.dirs && UserDirs(100) <= d.dirs && UserDir(100) !in d.files &&
            (forall k :: Exists(d, PicturePath(100, k, Normal, Port)))
  {
    forall k ensures Exists(TwoUsers(), PicturePath(100, k, Normal, Port)) {
      assert k == System || k == Lockscreen;
    }
  }

  lemma Restarted(setup: Setup, a: State, m: State)
    requires IsTree(a.disk) && Laid(a.disk, 0) && m == State(a.disk, Indexed(setup, a.disk, 0), -1, 0, 0)
    ensures SureStep(setup, a, Restart(0), NO_ERROR, m)
  {
    LaidIsLaidOut(a.disk, 0);
    hide Rebuild, IsTree, Laid, LaidOut;
    forall k: WallpaperType ensures m.Has(0, k) {
      assert k == System || k == Lockscreen;
    }
  }

  lemma EntriesSetUp(setup: Setup, m: State, b: State)
    requires m.entries == Indexed(setup, m.disk, 0) && b.entries == m.entries + Indexed(setup, b.disk, 100)
    ensures OtherUsersKept(m, b, 100) && !m.Has(100, System)
    ensures forall k :: b.Has(100, k) && b.At(100, k) == Rebuild(setup, b.disk, 100, k)
  {
    IndexedFits(setup, m.disk, 0);
    IndexedFits(setup, b.disk, 100);
    hide Rebuild, Indexed, EntryOk;
  }

  lemma SetUpOnRead(setup: Setup, m: State, q: Request, b: State)
    requires m == State(TwoUsers(), Indexed(setup, TwoUsers(), 0), -1, 0, 0) && q == Lookup(100, System, ReadPicture)
    requires var e := TwoUsers().(files := map[]);
             b == m.(disk := e, entries := m.entries + Indexed(setup, e, 100))
    ensures SureStep(setup, m, q, NO_ERROR, b)
  {
    TwoUsersDisk();
    NothingButDirs(b.disk);
    OnlyPicturesGone(b.disk);
    EntriesSetUp(setup, m, b);
    hide Rebuild, TwoUsers, IsTree, Inside, Indexed, EntryOk, SameAt, SureStep, GetWallpaperDir, UserDir,
      OtherUsersKept;
    assert InitDone(setup, b, 100);
    assert StateFileFits(setup, b.disk, 100);
    ReadIsSure(setup, m, q, b);
  }

  lemma NothingButDirs(e: Disk)
    requires e == TwoUsers().(files := map[])
    ensures IsTree(e)
    ensures forall p :: Inside(p, UserDir(100)) ==>
              (p in e.dirs <==>
                 p == UserDir(100) || p == GetWallpaperDir(100, System) || p == GetWallpaperDir(100, Lockscreen))
  {
    TwoUsersDisk();
    UserDirsInside(0);
    UserDirsInside(100);
    forall p | Inside(p, UserDir(100)) ensures p in e.dirs <==> p in UserDirs(100) {
      if p in UserDirs(0) { DistinctUsers(p, 0, 100); }
    }
  }

  lemma OnlyPicturesGone(e: Disk)
    requires e == TwoUsers().(files := map[])
    ensures forall p :: !Inside(p, UserDir(100)) ==> SameAt(TwoUsers(), e, p)
  {
    Layout(100, System);
    Layout(100, Lockscreen);
    hide Inside;
  }

  lemma ReadAlwaysLoses(setup: Setup, a: State, c: ErrorCode, m: State, q: Request, code: ErrorCode, b: State,
                        k: WallpaperType)
    requires SureStep(setup, a, Restart(0), c, m) && SureStep(setup, m, q, code, b) &&
             q == Lookup(100, System, ReadPicture)
    requires Base in a.disk.dirs && UserDir(100) !in a.disk.files
    ensures !Exists(b.disk, PicturePath(100, k, Normal, Port))
  {
    hide Rebuild;
    RestartedHas(setup, a, 0, m, 100, System);
    assert KeptAt(a.disk, m.disk, Base) && KeptAt(a.disk, m.disk, UserDir(100));
    assert InitDone(setup, b, 100);
    var picture := PicturePath(100, k, Normal, Port);
    Layout(100, k);
    assert Inside(picture, UserDir(100)) && picture != UserDir(100);
  }

  // ----- from the boot of an account on -----

  /** Neither a restart nor the removal of one of these users. */
  predicate Spares(q: Request, users: seq<int>) {
    !q.Restart? && !(q.RemoveUser? && q.userId in users)
  }

  /** Every entry that was there still is. */
  ghost predicate EntriesKept(a: State, b: State) {
    forall x: Slot :: x in a.entries ==> x in b.entries
  }

  lemma UserBothKeepsEntries(a: State, b: State, u: int)
    requires OtherUsersKept(a, b, u) && BothPresent(b, u)
    ensures EntriesKept(a, b)
  {
    TwoSlots(u);
    forall x: Slot | x in a.entries ensures x in b.entries {
      assert x.userId != u ==> SameEntry(a, b, x);
    }
  }

  lemma GrewKeepsEntries(a: State, b: State, u: int)
    requires Grew(a, b, u)
    ensures EntriesKept(a, b)
  {
  }

  lemma InitKeepsEntries(setup: Setup, a: State, b: State, u: int)
    requires OtherUsersKept(a, b, u) && (InitDone(setup, b, u) || b.entries == a.entries)
    ensures EntriesKept(a, b)
  {
    hide Rebuild;
    if InitDone(setup, b, u) {
      assert b.Has(u, System) && b.Has(u, Lockscreen);
      UserBothKeepsEntries(a, b, u);
    }
  }

  lemma SetKeepsEntries(setup: Setup, a: State, b: State, u: int, allowed: bool, content: Bytes, wallpaperType: int,
                        length: int, res: ResourceType, code: ErrorCode)
    requires SetOutcome(setup, a, b, u, allowed, content, wallpaperType, length, res, code)
    ensures EntriesKept(a, b)
  {
    hide SameAt, StateKept, NewText, InitDone, Installed, EntriesKept, Rebuild, Below, Inside;
    if b == a {
      SameKeepsEntries(a);
    } else if code == NO_ERROR {
      UserBothKeepsEntries(a, b, u);
    } else if Wiped(setup, a, b, u) {
      InitKeepsEntries(setup, a, b, u);
    } else {
      GrewKeepsEntries(a, b, u);
    }
  }

  lemma SameKeepsEntries(a: State)
    ensures EntriesKept(a, a)
  {
  }

  lemma CustomKeepsEntries(setup: Setup, a: State, b: State, u: int, caller: Caller, content: Bytes, wallpaperType: int,
                           length: int, code: ErrorCode)
    requires CustomOutcome(setup, a, b, u, caller, content, wallpaperType, length, code)
    ensures EntriesKept(a, b)
  {
    hide SetOutcome, Refused, NewText, Rebuild, FillBoth, Fill, WithPackage;
    var t := TypeOf(wallpaperType);
    OneMoreKeepsEntries(a, Fill(setup, a, u, t), Slot(u, t)) by { FillFacts(setup, a, u, t); }
    if CustomPrecheck(caller, wallpaperType) == NO_ERROR && caller.sceneBoard {
      if Refused(setup, a, b, u) {
        RefusedKeepsEntries(setup, a, b, u);
      } else {
        var m, n :| StateSaved(setup, a, m, u, t, RES_PACKAGE) && IsTree(m.disk) &&
                    SetOutcome(setup, m, n, u, caller.userAllowed, content, wallpaperType, length, RES_PACKAGE, code) &&
                    b == WithPackage(setup, a, n, u, t);
        FillBothKeepsEntries(setup, a, m, u);
        SetKeepsEntries(setup, m, n, u, caller.userAllowed, content, wallpaperType, length, RES_PACKAGE, code);
        OneMoreKeepsEntries(n, b, Slot(u, t)) by { PackageFacts(setup, a, n, u, t); }
      }
    }
  }

  lemma OneMoreKeepsEntries(a: State, b: State, z: Slot)
    requires z in b.entries && forall x: Slot :: x != z ==> SameEntry(a, b, x)
    ensures EntriesKept(a, b)
  {
    forall x: Slot | x in a.entries ensures x in b.entries {
      assert x != z ==> SameEntry(a, b, x);
    }
  }

  lemma FillBothKeepsEntries(setup: Setup, a: State, m: State, u: int)
    requires m == FillBoth(setup, a, u).(disk := m.disk)
    ensures EntriesKept(a, m)
  {
    hide FillBoth, Rebuild;
    FillBothFacts(setup, a, u);
    var f := FillBoth(setup, a, u);
    assert f.Has(u, System) && f.Has(u, Lockscreen);
    UserBothKeepsEntries(a, m, u);
  }

  lemma RefusedKeepsEntries(setup: Setup, a: State, b: State, u: int)
    requires Refused(setup, a, b, u)
    ensures EntriesKept(a, b)
  {
    hide SameAt, StateKept, Rebuild;
  }

  lemma ResetKeepsEntries(setup: Setup, a: State, b: State, u: int, caller: Caller, wallpaperType: int, code: ErrorCode)
    requires ResetOutcome(setup, a, b, u, caller, wallpaperType, code)
    ensures EntriesKept(a, b)
  {
    hide SameAt, StateKept, NewText, EntriesKept, Rebuild, Below;
    if b == a {
      SameKeepsEntries(a);
    } else if code == NO_ERROR {
      UserBothKeepsEntries(a, b, u);
    } else {
      GrewKeepsEntries(a, b, u);
    }
  }

  lemma ListKeepsEntries(setup: Setup, a: State, b: State, u: int, t: WallpaperType, items: seq<Item>)
    requires SetAllDone(setup, a, b, u, t, items)
    ensures EntriesKept(a, b)
  {
    hide SameAt, DistinctScreens, PicturesSet, Below;
    OneMoreKeepsEntries(a, b, Slot(u, t));
  }

  lemma SetAllKeepsEntries(setup: Setup, a: State, b: State, u: int, caller: Caller, items: seq<Item>, fdCount: nat,
                           wallpaperType: int, code: ErrorCode)
    requires SetAllOutcome(setup, a, b, u, caller, items, fdCount, wallpaperType, code)
    ensures EntriesKept(a, b)
  {
    hide Refused, SetAllDone, Spoiled, EntriesKept;
    var t := TypeOf(wallpaperType);
    if b == a {
      SameKeepsEntries(a);
    } else if code == NO_ERROR {
      ListKeepsEntries(setup, a, b, u, t, items);
    } else if Refused(setup, a, b, u) {
      RefusedKeepsEntries(setup, a, b, u);
    } else {
      SpoiledKeepsEntries(setup, a, b, u, t);
    }
  }

  lemma SpoiledKeepsEntries(setup: Setup, a: State, b: State, u: int, t: WallpaperType)
    requires Spoiled(setup, a, b, u, t)
    ensures EntriesKept(a, b)
  {
    hide SameAt, StateKept, Rebuild;
  }

  lemma EventKeepsEntries(setup: Setup, a: State, q: Request, b: State, x: Slot)
    requires q.RemoveUser? || q.SwitchUser? || q.Boot?
    requires Step(setup, a, q, NO_ERROR, b) && x in a.entries && !(q.RemoveUser? && q.userId == x.userId)
    ensures x in b.entries
  {
    hide Rebuild, IsTree, ScaffoldOnly, DirsMade, Inside, SameAt;
    match q
    case RemoveUser(u) => assert u >= 0 ==> SameEntry(a, b, x);
    case SwitchUser(u, active) =>
      if b != a {
        TwoSlots(u);
        assert x.userId != u ==> SameEntry(a, b, x);
      }
    case Boot(users) => assert x.userId !in users ==> SameEntry(a, b, x);
    case _ =>
  }

  /** No request and no account event takes an entry away, whatever fails, but a restart and the removal of
      its user. */
  lemma StepKeepsEntries(setup: Setup, a: State, q: Request, code: ErrorCode, b: State, x: Slot)
    requires Step(setup, a, q, code, b) && x in a.entries
    requires !q.Restart? && !(q.RemoveUser? && q.userId == x.userId)
    ensures x in b.entries
  {
    hide SetOutcome, CustomOutcome, ResetOutcome, SetAllOutcome, RemoveOutcome, SwitchOutcome, BootOutcome, InitDone,
      IsTree, SameAt;
    match q
    case Set(u, allowed, content, t, length, res) =>
      SetKeepsEntries(setup, a, b, u, allowed, content, t, length, res, code);
    case Custom(u, caller, content, t, length) => CustomKeepsEntries(setup, a, b, u, caller, content, t, length, code);
    case Reset(u, caller, t) => ResetKeepsEntries(setup, a, b, u, caller, t, code);
    case SetAll(u, caller, items, fdCount, t) => SetAllKeepsEntries(setup, a, b, u, caller, items, fdCount, t, code);
    case Lookup(u, t, _) => if b != a && u >= 0 { InitKeepsEntries(setup, a, b, u); }
    case InitUser(u) => if u >= 0 { InitKeepsEntries(setup, a, b, u); }
    case RemoveUser(u) => EventKeepsEntries(setup, a, q, b, x);
    case SwitchUser(u, active) => EventKeepsEntries(setup, a, q, b, x);
    case Boot(users) => EventKeepsEntries(setup, a, q, b, x);
    case Restart(_) =>
  }

  lemma {:induction false} RunKeepsEntries(setup: Setup, start: State, events: seq<Event>, x: Slot)
    requires Run(setup, start, events) && x in start.entries
    requires forall i :: 0 <= i < |events| ==> Spares(events[i].request, [x.userId])
    ensures x in Final(start, events).entries
    decreases |events|
  {
    hide Step;
    if events != [] {
      var e, rest := events[0], events[1..];
      assert Spares(e.request, [x.userId]) && x.userId in [x.userId];
      StepKeepsEntries(setup, start, e.request, e.code, e.after, x);
      forall i | 0 <= i < |rest| ensures Spares(rest[i].request, [x.userId]) {
        assert rest[i] == events[i + 1];
      }
      RunKeepsEntries(setup, e.after, rest, x);
    }
  }

  /** The run up to one of its steps, and that step. */
  lemma {:induction false} StepOfRun(setup: Setup, start: State, events: seq<Event>, i: nat)
    requires Run(setup, start, events) && i < |events|
    ensures Run(setup, start, events[..i])
    ensures Step(setup, Final(start, events[..i]), events[i].request, events[i].code, events[i].after)
    decreases |events|
  {
    hide Step;
    if i > 0 {
      var rest := events[1..];
      StepOfRun(setup, events[0].after, rest, i - 1);
      assert events[..i] == [events[0]] + rest[..i - 1];
      assert events[..i][1..] == rest[..i - 1];
    }
  }

  /** From the boot of the accounts on, whatever fails, a request for one slot of such an account keeps every
      other slot, and a read changes nothing at all, until the account is removed or the service restarts. */
  lemma BootedRunKeepsOthers(setup: Setup, start: State, users: seq<int>, c: ErrorCode, booted: State,
                             events: seq<Event>, i: nat)
    requires Step(setup, start, Boot(users), c, booted) && Run(setup, booted, events) && i < |events|
    requires forall j :: 0 <= j < i ==> Spares(events[j].request, users)
    requires OneSlot(events[i].request) && events[i].request.userId in users
    ensures OthersKept(setup, Final(booted, events[..i]), events[i].after, SlotOf(events[i].request))
    ensures events[i].request.Lookup? ==> events[i].after == Final(booted, events[..i])
  {
    var q, a := events[i].request, Final(booted, events[..i]);
    StepOfRun(setup, booted, events, i);
    BootedHas(setup, start, users, c, booted, SlotOf(q));
    forall j | 0 <= j < i ensures Spares(events[..i][j].request, [q.userId]) {
      assert Spares(events[j].request, users);
    }
    RunKeepsEntries(setup, booted, events[..i], SlotOf(q));
    PresentIsSafe(setup, a, q, events[i].code, events[i].after);
  }

  lemma BootedHas(setup: Setup, start: State, users: seq<int>, c: ErrorCode, booted: State, x: Slot)
    requires Step(setup, start, Boot(users), c, booted) && x.userId in users
    ensures x in booted.entries
  {
    hide Rebuild, IsTree, ScaffoldOnly;
    assert IsRebuilt(setup, booted, x);
  }

  lemma PresentIsSafe(setup: Setup, a: State, q: Request, code: ErrorCode, b: State)
    requires OneSlot(q) && Step(setup, a, q, code, b) && SlotOf(q) in a.entries
    ensures OthersKept(setup, a, b, SlotOf(q)) && (q.Lookup? ==> b == a)
  {
    assert a.Has(SlotOf(q).userId, SlotOf(q).wallpaperType);
    SlotRequestKeepsOthers(setup, a, q, code, b);
    hide SetOutcome, CustomOutcome, ResetOutcome, SetAllOutcome, InitOutcome, OthersKept, IsTree;
  }
}
