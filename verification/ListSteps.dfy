/** From single calls to the outcome of a list of pictures: temporary files, clearing and moves. */
module ListSteps {
  import opened Paths
  import opened FileDeal
  import opened StateFile
  import opened ServiceState
  import opened Places
  import opened EntryFacts
  import opened SlotSteps

  lemma SureRefusal(setup: Setup, a: State, b: State, u: int, t: WallpaperType, items: seq<Item>, wallpaperType: int,
                    code: ErrorCode)
    requires SetAllSure(setup, a, b, u, t, items, wallpaperType, code) && code != NO_ERROR &&
             ListAnswer(items, wallpaperType) != NO_ERROR
    ensures Refused(setup, a, b, u)
  {
  }

  lemma SureSuccess(setup: Setup, a: State, b: State, u: int, t: WallpaperType, items: seq<Item>, wallpaperType: int)
    requires SetAllSure(setup, a, b, u, t, items, wallpaperType, NO_ERROR)
    ensures HoldsOnly(b.disk, u, t, items) && b.Has(u, t)
    ensures !a.Has(u, t) && !Listed(items, Normal, Port) ==>
              b.At(u, t).pictures.wallpaperFile == GetWallpaperDefaultPath(setup, t).wallpaperFile
  {
  }

  lemma SureRepeat(setup: Setup, a: State, b: State, u: int, t: WallpaperType, items: seq<Item>, wallpaperType: int,
                   code: ErrorCode) returns (i: nat)
    requires SetAllSure(setup, a, b, u, t, items, wallpaperType, code) && code != NO_ERROR &&
             ListAnswer(items, wallpaperType) == NO_ERROR
    ensures Spoiled(setup, a, b, u, t) && b.Has(u, t)
    ensures !a.Has(u, t) ==> b.At(u, t).pictures == GetWallpaperDefaultPath(setup, t)
    ensures RepeatsAt(items, i) && PicturesLeft(b.disk, u, t, items[..i])
    ensures PicturesHold(a.disk, b.disk, u, t, items, i)
  {
    hide PicturesLeft, PicturesHold;
    i :| RepeatsAt(items, i) && PicturesLeft(b.disk, u, t, items[..i]) && PicturesHold(a.disk, b.disk, u, t, items, i);
  }

  lemma ListStep(items: seq<Item>, wallpaperType: int, i: nat)
    requires i < |items| && ListAnswer(items[..i], wallpaperType) == NO_ERROR
    ensures var valid := CheckValid(wallpaperType, items[i].length, RES_PICTURE);
            ListAnswer(items[..i + 1], wallpaperType) ==
              if valid != NO_ERROR then valid else if items[i].content == [] then E_DEAL_FAILED else NO_ERROR
  {
    assert items[..i + 1][..i] == items[..i];
  }

  lemma {:induction false} ListStops(items: seq<Item>, wallpaperType: int, i: nat)
    requires i <= |items| && ListAnswer(items[..i], wallpaperType) != NO_ERROR
    ensures ListAnswer(items, wallpaperType) == ListAnswer(items[..i], wallpaperType)
    decreases |items| - i
  {
    if i < |items| {
      assert items[..i + 1][..i] == items[..i];
      ListStops(items, wallpaperType, i + 1);
    } else {
      assert items[..i] == items;
    }
  }

  lemma ListNothing(wallpaperType: int, items: seq<Item>)
    ensures ListAnswer(items[..0], wallpaperType) == NO_ERROR
  {
  }

  lemma MovedAreDistinct(a: Disk, b: Disk, u: int, t: WallpaperType, items: seq<Item>)
    requires AllMoved(a, b, u, t, items)
    ensures DistinctScreens(items)
  {
  }

  lemma WritableAt(d: Disk, f: FoldState, r: RotateState)
    requires TempsWritable(d)
    ensures Writable(d, TempPath(f, r))
  {
  }

  lemma StillWritable(a: Disk, b: Disk, p: Path, bytes: Bytes, ok: bool)
    requires Written(a, b, p, bytes, ok)
    ensures TempsWritable(a) ==> TempsWritable(b)
    ensures TempsReady(a) ==> TempsReady(b)
    ensures b.dirs == a.dirs
  {
  }

  lemma {:induction false} FirstRepeat(items: seq<Item>, i: nat)
    requires RepeatsAt(items, i)
    ensures BeforeRepeat(items) == items[..i]
  {
    RepeatIsNotDistinct(items, i);
    var n := |items| - 1;
    assert items[..n][..i] == items[..i];
    if i < n {
      FirstRepeat(items[..n], i);
    }
  }

  lemma RepeatIsNotDistinct(items: seq<Item>, i: nat)
    requires RepeatsAt(items, i)
    ensures !DistinctScreens(items)
  {
    var j :| 0 <= j < i && items[..i][j].TempFile() == items[i].TempFile();
    assert items[j].TempFile() == items[i].TempFile();
  }

  lemma MoveIsReady(d: Disk, u: int, t: WallpaperType, items: seq<Item>, i: nat)
    requires MovesReady(d, u, t, items, i) && i < |items| && Exists(d, items[i].TempFile())
    requires forall j :: 0 <= j < i ==> !Exists(d, items[..i][j].TempFile())
    ensures items[i].TempFile() in d.files && Writable(d, items[i].Target(u, t))
  {
  }

  lemma MissingIsRepeat(d: Disk, u: int, t: WallpaperType, items: seq<Item>, i: nat)
    requires MovesReady(d, u, t, items, i) && i < |items| && !Exists(d, items[i].TempFile()) &&
             DistinctScreens(items[..i])
    ensures RepeatsAt(items, i)
  {
  }

  lemma MovedAreGone(a: Disk, b: Disk, u: int, t: WallpaperType, items: seq<Item>, i: nat)
    requires i <= |items| && AllMoved(a, b, u, t, items[..i])
    ensures DistinctScreens(items[..i]) && forall j :: 0 <= j < i ==> !Exists(b, items[..i][j].TempFile())
  {
  }

  lemma MovesStayReady(a: Disk, b: Disk, u: int, t: WallpaperType, items: seq<Item>, i: nat)
    requires i < |items| && MovesReady(a, u, t, items, i) && b.dirs <= a.dirs
    requires forall p :: p != items[i].TempFile() && p != items[i].Target(u, t) ==> SameAt(a, b, p)
    ensures MovesReady(b, u, t, items, i + 1)
  {
    Layout(u, t);
    var x := items[i];
    assert GetWallpaperDir(u, t) != x.TempFile() && GetWallpaperDir(u, t) != x.Target(u, t);
    assert SameAt(a, b, GetWallpaperDir(u, t));
    forall j | i + 1 <= j < |items|
      ensures items[j].Target(u, t) !in b.dirs
      ensures IsTempOf(items[..i + 1], items[j].TempFile()) || items[j].TempFile() in b.files
    {
      IsTempOfPrefix(items, i, items[j].TempFile());
      assert items[j].TempFile() != x.TempFile() ==> SameAt(a, b, items[j].TempFile());
    }
  }

  /** After the temporary files were written and the directory cleared every move can be made. */
  lemma SureToMove(a: Disk, d1: Disk, d2: Disk, u: int, t: WallpaperType, items: seq<Item>, wallpaperType: int)
    requires IsTree(d2) && TempsWritten(a, d1, wallpaperType, items)
    requires DirDeleted(d1, d2, GetWallpaperDir(u, t), false, true)
    ensures MovesReady(d2, u, t, items, 0)
  {
    Layout(u, t);
    forall j | 0 <= j < |items| ensures items[j].TempFile() in d2.files && items[j].Target(u, t) !in d2.dirs {
      var p := items[j].TempFile();
      assert SameAt(d1, d2, p) by {
        if Inside(p, GetWallpaperDir(u, t)) { InsideDepth(p, GetWallpaperDir(u, t)); }
      }
      assert Below(items[j].Target(u, t), GetWallpaperDir(u, t));
    }
  }

  /** Whether the directory of the slot is there or not, the temporary files can be written. */
  lemma ListCanStart(reliable: bool, d: Disk, u: int, t: WallpaperType)
    requires IsTree(d)
    ensures ListSure(reliable, d, u, t) ==> reliable && TempsWritable(d) && TempsReady(d)
    ensures SlotMissing(d, u, t) ==> TempsWritable(d) && TempsReady(d) && GetWallpaperDir(u, t) !in d.dirs
  {
    if TempsReady(d) && (Base in d.dirs || GetWallpaperDir(u, t) in d.dirs) {
      assert GetWallpaperDir(u, t).parent == UserDir(u) && UserDir(u).parent == Base;
      TempsFit(d);
    }
  }

  lemma ReadyIsListSure(reliable: bool, d: Disk, u: int, t: WallpaperType)
    requires RequestSure(reliable, d, u, t)
    ensures ListSure(reliable, d, u, t)
  {
  }

  lemma SureAfterTemps(reliable: bool, a: Disk, b: Disk, u: int, t: WallpaperType, items: seq<Item>)
    requires OnlyTemps(a, b, items)
    ensures ListSure(reliable, a, u, t) ==> reliable && GetWallpaperDir(u, t) in b.dirs
  {
    TempsAreTemps(items, u, t);
    assert !IsTemp(GetWallpaperDir(u, t));
  }

  /** What a list whose screens repeat leaves in the directory: the pictures before the first repeat. */
  lemma RepeatLeaves(d1: Disk, d2: Disk, d3: Disk, d4: Disk, u: int, t: WallpaperType, items: seq<Item>, i: nat)
    requires i <= |items| && DirDeleted(d1, d2, GetWallpaperDir(u, t), false, true)
    requires AllMoved(d2, d3, u, t, items[..i]) && OnlyTemps(d3, d4, items)
    ensures PicturesLeft(d4, u, t, items[..i])
  {
    Layout(u, t);
    TempsAreTemps(items, u, t);
    TempsAreTemps(items[..i], u, t);
    forall p | Below(p, GetWallpaperDir(u, t)) ensures Exists(d4, p) <==> IsTargetOf(items[..i], u, t, p) {
      assert SameAt(d3, d4, p);
      if !IsTargetOf(items[..i], u, t, p) {
        assert SameAt(d2, d3, p) && !Exists(d2, p);
      }
    }
  }

  lemma RepeatHolds(a: Disk, d1: Disk, d2: Disk, d3: Disk, d4: Disk, u: int, t: WallpaperType, items: seq<Item>, i: nat,
                    wallpaperType: int)
    requires i <= |items| && IsTree(d1) && TempsWritten(a, d1, wallpaperType, items)
    requires DirDeleted(d1, d2, GetWallpaperDir(u, t), false, true)
    requires AllMoved(d2, d3, u, t, items[..i]) && OnlyTemps(d3, d4, items)
    ensures PicturesHold(a, d4, u, t, items, i)
  {
    hide Writes, Overwrite, Buffered, CheckValid, DirDeleted;
    Layout(u, t);
    TempsAreTemps(items, u, t);
    ClearedIsTouched(d1, d2, u, t, true);
    forall j | 0 <= j < i
      ensures items[j].TempFile() in Writes(a.files, items) && items[j].Target(u, t) in d4.files
      ensures d4.files[items[j].Target(u, t)] == Writes(a.files, items)[items[j].TempFile()]
    {
      assert items[..i][j] == items[j];
      assert SameAt(d1, d2, TempPath(items[j].foldState, items[j].rotateState));
      assert SameAt(d3, d4, items[j].Target(u, t));
    }
  }

  /** A missing entry is filled in from the cleared directory. */
  lemma FilledDefault(setup: Setup, a: State, d2: Disk, u: int, t: WallpaperType)
    requires !Exists(d2, PicturePath(u, t, Normal, Port))
    ensures var f := Fill(setup, a.(disk := d2), u, t);
            f.Has(u, t) && f == FillEmptied(setup, a, u, t).(disk := d2) &&
            (!a.Has(u, t) ==> f.At(u, t).pictures == GetWallpaperDefaultPath(setup, t))
  {
  }

  lemma ClearedHoldsOnly(d1: Disk, d2: Disk, d3: Disk, u: int, t: WallpaperType, items: seq<Item>)
    requires DirDeleted(d1, d2, GetWallpaperDir(u, t), false, true) && MovesOnly(d2, d3, u, t, items)
    ensures HoldsOnly(d3, u, t, items)
  {
    Layout(u, t);
    TempsAreTemps(items, u, t);
  }

  lemma FewerDirsReady(a: Disk, b: Disk)
    requires b.dirs <= a.dirs
    ensures TempsReady(a) ==> TempsReady(b)
  {
  }

  lemma DeletedIsFewer(a: Disk, b: Disk, p: Path)
    requires forall q :: q != p ==> SameAt(a, b, q)
    requires !Exists(b, p) || a == b
    ensures Fewer(a, b)
  {
    forall q ensures (q in b.dirs ==> q in a.dirs) && (q in b.files ==> q in a.files) {
      assert q == p || SameAt(a, b, q);
    }
  }

  lemma IsTempOfPrefix(items: seq<Item>, i: int, p: Path)
    requires 0 <= i < |items|
    ensures IsTempOf(items[..i + 1], p) <==> IsTempOf(items[..i], p) || items[i].TempFile() == p
  {
    assert items[..i + 1][i] == items[i];
    assert forall j :: 0 <= j < i ==> items[..i + 1][j] == items[..i][j];
  }

  lemma TempsWrittenStep(a: Disk, b: Disk, c: Disk, wallpaperType: int, items: seq<Item>, i: int)
    requires 0 <= i < |items| && TempsWritten(a, b, wallpaperType, items[..i])
    requires CheckValid(wallpaperType, items[i].length, RES_PICTURE) == NO_ERROR
    requires Written(b, c, items[i].TempFile(), items[i].Buffer(), true)
    ensures TempsWritten(a, c, wallpaperType, items[..i + 1])
  {
    hide Overwrite, Buffered;
    var now := items[..i + 1];
    var before := items[..i];
    var last := items[i].TempFile();
    assert forall j :: 0 <= j < i ==> now[j] == before[j];
    if DistinctScreens(now) {
      assert forall j :: 0 <= j < i ==> now[j].TempFile() != now[i].TempFile();
      assert !IsTempOf(before, last);
      assert SameAt(a, b, last);
      assert DistinctScreens(before);
      assert TempsHold(a, c, now);
    }
    forall k | 0 <= k < |now| ensures now[k].TempFile() in c.files {
      assert k < i ==> before[k].TempFile() in b.files;
    }
    forall p | !IsTempOf(now, p) ensures SameAt(a, c, p) {
      IsTempOfPrefix(items, i, p);
      assert SameAt(a, b, p);
    }
    assert now[..i] == before;
    assert c.files == Writes(a.files, now);
  }

  lemma AllMovedStep(a: Disk, b: Disk, c: Disk, u: int, t: WallpaperType, items: seq<Item>, i: int)
    requires 0 <= i < |items| && AllMoved(a, b, u, t, items[..i])
    requires Exists(b, items[i].TempFile()) && Moved(b, c, items[i].TempFile(), items[i].Target(u, t))
    ensures AllMoved(a, c, u, t, items[..i + 1])
  {
    var now := items[..i + 1];
    var before := items[..i];
    var temp, target := items[i].TempFile(), items[i].Target(u, t);
    forall j | 0 <= j < i ensures now[j].TempFile() != temp && now[j].Target(u, t) != target && now[j] == before[j] {
      assert !Exists(b, before[j].TempFile());
    }
    assert temp in a.files && a.files[temp] == b.files[temp] by {
      assert !IsTempOf(before, temp) && !IsTargetOf(before, u, t, temp);
      assert SameAt(a, b, temp);
    }
    forall k | 0 <= k < |now|
      ensures now[k].TempFile() in a.files && !Exists(c, now[k].TempFile())
      ensures now[k].Target(u, t) in c.files && c.files[now[k].Target(u, t)] == a.files[now[k].TempFile()]
    {
      if k < i {
        assert SameAt(b, c, now[k].TempFile()) && SameAt(b, c, now[k].Target(u, t));
      }
    }
    forall p | !IsTempOf(now, p) && !IsTargetOf(now, u, t, p) ensures SameAt(a, c, p) {
      assert now[i].TempFile() != p && now[i].Target(u, t) != p;
      forall j | 0 <= j < i ensures before[j].TempFile() != p && before[j].Target(u, t) != p {
        assert now[j].TempFile() != p && now[j].Target(u, t) != p;
      }
      assert !IsTempOf(before, p) && !IsTargetOf(before, u, t, p);
      assert SameAt(a, b, p) && SameAt(b, c, p);
    }
  }

  lemma PicturesSetStep(before: Pictures, after: Pictures, u: int, t: WallpaperType, items: seq<Item>, i: int)
    requires 0 <= i < |items| && PicturesSet(before, after, u, t, items[..i])
    ensures PicturesSet(before, after.With(items[i].foldState, items[i].rotateState, items[i].Target(u, t)), u, t,
                        items[..i + 1])
  {
    var item := items[i];
    var next := after.With(item.foldState, item.rotateState, item.Target(u, t));
    forall f, r
      ensures next.At(f, r) == if Listed(items[..i + 1], f, r) then PicturePath(u, t, f, r) else before.At(f, r)
    {
      WithAt(after, item.foldState, item.rotateState, item.Target(u, t), f, r);
      assert Listed(items[..i + 1], f, r) <==> Listed(items[..i], f, r) || IsFor(item, f, r) by {
        assert items[..i + 1][i] == item;
        assert forall j :: 0 <= j < i ==> items[..i + 1][j] == items[..i][j];
      }
    }
  }

  lemma PortraitUnlisted(before: Pictures, after: Pictures, u: int, t: WallpaperType, items: seq<Item>)
    requires PicturesSet(before, after, u, t, items) && !Listed(items, Normal, Port)
    ensures after.wallpaperFile == before.wallpaperFile
  {
    assert after.At(Normal, Port) == before.At(Normal, Port);
  }

  lemma WithAt(ps: Pictures, f: FoldState, r: RotateState, p: Path, f': FoldState, r': RotateState)
    ensures ps.With(f, r, p).At(f', r') == if f == f' && r == r' then p else ps.At(f', r')
  {
  }

  lemma TempsAreTemps(items: seq<Item>, u: int, t: WallpaperType)
    ensures forall p :: IsTempOf(items, p) ==> IsTemp(p)
    ensures forall p :: IsTargetOf(items, u, t, p) ==> Below(p, GetWallpaperDir(u, t))
    ensures !IsTempOf(items, StatePath(u)) && !IsTargetOf(items, u, t, StatePath(u))
  {
    Layout(u, t);
  }

  lemma OnlyTempsRefused(setup: Setup, a: State, d: Disk, u: int, items: seq<Item>)
    requires OnlyTemps(a.disk, d, items) && d.dirs <= a.disk.dirs
    ensures Refused(setup, a, a.(disk := d), u)
  {
    TempsAreTemps(items, u, System);
    assert SameAt(a.disk, d, StatePath(u));
  }

  lemma OnlyTempsTransitive(a: Disk, b: Disk, c: Disk, items: seq<Item>)
    requires OnlyTemps(a, b, items) && OnlyTemps(b, c, items)
    ensures OnlyTemps(a, c, items)
  {
    forall p | !IsTempOf(items, p) ensures SameAt(a, c, p) {
      assert SameAt(a, b, p) && SameAt(b, c, p);
    }
  }

  lemma FewerDirs(a: Disk, b: Disk)
    requires Fewer(a, b)
    ensures b.dirs <= a.dirs
  {
  }

  lemma SetAllTouched(d0: Disk, d1: Disk, d2: Disk, d3: Disk, u: int, t: WallpaperType, items: seq<Item>, cleared: bool)
    requires IsTree(d1) && OnlyTemps(d0, d1, items) && DirDeleted(d1, d2, GetWallpaperDir(u, t), false, cleared)
    requires MovesOnly(d2, d3, u, t, items)
    ensures Touched(d0, d3, u, t) && SameAt(d0, d3, StatePath(u)) && d2.dirs <= d1.dirs
  {
    TempsAreTemps(items, u, t);
    Layout(u, t);
    ClearedIsTouched(d1, d2, u, t, cleared);
    assert SameAt(d0, d1, StatePath(u)) && SameAt(d2, d3, StatePath(u));
    forall p | !Below(p, GetWallpaperDir(u, t)) && !IsTemp(p) ensures SameAt(d0, d3, p) {
      assert p == StatePath(u) || (SameAt(d0, d1, p) && SameAt(d1, d2, p) && SameAt(d2, d3, p));
    }
  }

  lemma FillTouchedSpoils(setup: Setup, a: State, d2: Disk, d3: Disk, u: int, t: WallpaperType)
    requires Touched(a.disk, d3, u, t) && SameAt(a.disk, d3, StatePath(u)) && d3.dirs <= a.disk.dirs
    ensures Spoiled(setup, a, Fill(setup, a.(disk := d2), u, t).(disk := d3), u, t)
  {
    RebuildIsFresh(setup, d2, u, t);
  }

  /** The disk of a successful SetAllWallpapers. */
  lemma SetAllDisk(d0: Disk, d1: Disk, d2: Disk, d3: Disk, u: int, t: WallpaperType, items: seq<Item>,
                   wallpaperType: int, cleared: bool)
    requires IsTree(d1) && TempsWritten(d0, d1, wallpaperType, items)
    requires DirDeleted(d1, d2, GetWallpaperDir(u, t), false, cleared)
    requires AllMoved(d2, d3, u, t, items)
    ensures forall i :: 0 <= i < |items| ==>
              items[i].length > 0 && !Exists(d3, items[i].TempFile()) && items[i].Target(u, t) in d3.files &&
              d3.files[items[i].Target(u, t)] == Overwrite(Content(d0, items[i].TempFile()), items[i].Buffer())
    ensures forall p :: !Below(p, GetWallpaperDir(u, t)) && !IsTempOf(items, p) ==> SameAt(d0, d3, p)
    ensures forall p :: Below(p, GetWallpaperDir(u, t)) && !IsTargetOf(items, u, t, p) ==>
              !Exists(d3, p) || SameAt(d0, d3, p)
  {
    hide Overwrite, Buffered;
    TempsAreTemps(items, u, t);
    Layout(u, t);
    var dir := GetWallpaperDir(u, t);
    ClearedIsTouched(d1, d2, u, t, cleared);
    forall i | 0 <= i < |items|
      ensures items[i].length > 0
      ensures d3.files[items[i].Target(u, t)] == Overwrite(Content(d0, items[i].TempFile()), items[i].Buffer())
    {
      assert CheckValid(wallpaperType, items[i].length, RES_PICTURE) == NO_ERROR;
      assert TempsHold(d0, d1, items);
      assert SameAt(d1, d2, items[i].TempFile());
    }
    forall p | !Below(p, dir) && !IsTempOf(items, p) ensures SameAt(d0, d3, p) {
      assert Inside(p, dir) ==> p == dir;
      assert SameAt(d0, d1, p) && SameAt(d1, d2, p) && SameAt(d2, d3, p);
    }
    forall p | Below(p, dir) && !IsTargetOf(items, u, t, p) ensures !Exists(d3, p) || SameAt(d0, d3, p) {
      assert !IsTempOf(items, p);
      assert SameAt(d0, d1, p) && SameAt(d2, d3, p);
      assert !Exists(d2, p) || SameAt(d1, d2, p);
    }
  }

  lemma SetAllByParts(setup: Setup, a: State, d1: Disk, d2: Disk, d3: Disk, u: int, t: WallpaperType, items: seq<Item>,
                      wallpaperType: int, cleared: bool, pictures: Pictures)
    requires WellFormed(a) && IsTree(d1) && TempsWritten(a.disk, d1, wallpaperType, items)
    requires DirDeleted(d1, d2, GetWallpaperDir(u, t), false, cleared)
    requires AllMoved(d2, d3, u, t, items)
    requires PicturesSet(Only(Current(setup, a.(disk := d2), u, t).pictures.wallpaperFile), pictures, u, t, items)
    ensures var m := Fill(setup, a.(disk := d2), u, t).(disk := d3).Id();
            var data := Current(setup, a.(disk := d2), u, t).(pictures := pictures, resourceType := RES_PICTURE,
                                                                      wallpaperId := m.wallpaperId);
            SetAllDone(setup, a, m.With(u, t, data), u, t, items)
  {
    hide TempsWritten, DirDeleted, IsTree, PicturesFor, Fill, Overwrite, PicturesSet;
    SetAllDisk(a.disk, d1, d2, d3, u, t, items, wallpaperType, cleared);
    var c := a.(disk := d2);
    FillFacts(setup, c, u, t);
    RebuildIsFresh(setup, d2, u, t);
    assert a.Has(u, t) ==> EntryOk(a.At(u, t), Slot(u, t));
    var m := Fill(setup, c, u, t).(disk := d3).Id();
    var data := Current(setup, c, u, t).(pictures := pictures, resourceType := RES_PICTURE,
                                                                      wallpaperId := m.wallpaperId);
    var b := m.With(u, t, data);
    forall x: Slot | x != Slot(u, t) ensures SameEntry(a, b, x) {
      assert SameEntry(c, Fill(setup, c, u, t), x);
    }
    var portrait := Current(setup, c, u, t).pictures.wallpaperFile;
    assert PicturesSet(Only(portrait), b.At(u, t).pictures, u, t, items);
  }

  lemma NoTemps(d: Disk, wallpaperType: int, items: seq<Item>)
    ensures TempsWritten(d, d, wallpaperType, items[..0])
  {
  }

  lemma NothingTouched(d: Disk, items: seq<Item>)
    ensures OnlyTemps(d, d, items)
  {
  }

  lemma FailedTemp(a: Disk, b: Disk, c: Disk, wallpaperType: int, items: seq<Item>, i: int)
    requires 0 <= i < |items| && TempsWritten(a, b, wallpaperType, items[..i])
    requires Written(b, c, items[i].TempFile(), items[i].Buffer(), false)
    ensures OnlyTemps(a, c, items[..i + 1])
  {
    WrittenOnlyTemps(a, b, wallpaperType, items[..i]);
    MoreTemps(a, b, items, i);
    assert items[..i + 1][i] == items[i];
    WriteTouchesTemp(b, c, items[..i + 1], i, false);
    OnlyTempsTransitive(a, b, c, items[..i + 1]);
  }

  lemma OtherTempsKept(a: Disk, d1: Disk, d2: Disk, d4: Disk, u: int, t: WallpaperType, items: seq<Item>, cleared: bool)
    requires IsTree(d1) && OnlyTemps(a, d1, items) && DirDeleted(d1, d2, GetWallpaperDir(u, t), false, cleared)
    requires MovesOnly(d2, d4, u, t, items)
    ensures forall p :: IsTemp(p) && !IsTempOf(items, p) ==> SameAt(a, d4, p)
  {
    TempsAreTemps(items, u, t);
    Layout(u, t);
    ClearedIsTouched(d1, d2, u, t, cleared);
    forall p | IsTemp(p) && !IsTempOf(items, p) ensures SameAt(a, d4, p) {
      assert !Below(p, GetWallpaperDir(u, t));
      assert SameAt(d1, d2, p) by {
        if Inside(p, GetWallpaperDir(u, t)) { InsideDepth(p, GetWallpaperDir(u, t)); }
      }
      assert SameAt(a, d1, p) && SameAt(d2, d4, p);
    }
  }

  lemma NothingMoved(d: Disk, ps: Pictures, u: int, t: WallpaperType, items: seq<Item>)
    ensures AllMoved(d, d, u, t, items[..0]) && PicturesSet(ps, ps, u, t, items[..0])
  {
  }

  lemma WriteTouchesTemp(a: Disk, b: Disk, items: seq<Item>, i: int, ok: bool)
    requires 0 <= i < |items| && Written(a, b, items[i].TempFile(), items[i].Buffer(), ok)
    ensures OnlyTemps(a, b, items)
  {
    assert forall p :: !IsTempOf(items, p) ==> items[i].TempFile() != p;
  }

  lemma MoreTemps(a: Disk, b: Disk, items: seq<Item>, i: int)
    requires 0 <= i < |items| && OnlyTemps(a, b, items[..i])
    ensures OnlyTemps(a, b, items[..i + 1])
  {
    forall p | !IsTempOf(items[..i + 1], p) ensures !IsTempOf(items[..i], p) {
      IsTempOfPrefix(items, i, p);
    }
  }

  lemma FewerTemps(a: Disk, b: Disk, items: seq<Item>, i: int)
    requires 0 <= i < |items| && OnlyTemps(a, b, items[..i + 1])
    ensures OnlyTemps(a, b, items)
  {
    forall p | !IsTempOf(items, p) ensures !IsTempOf(items[..i + 1], p) {
      assert forall j :: 0 <= j <= i ==> items[..i + 1][j] == items[j];
    }
  }

  lemma MovesOnlyStep(a: Disk, b: Disk, c: Disk, u: int, t: WallpaperType, items: seq<Item>, i: int)
    requires 0 <= i < |items| && MovesOnly(a, b, u, t, items)
    requires forall p :: p != items[i].TempFile() && p != items[i].Target(u, t) ==> SameAt(b, c, p)
    ensures MovesOnly(a, c, u, t, items)
  {
    forall p | !IsTempOf(items, p) && !IsTargetOf(items, u, t, p) ensures SameAt(a, c, p) {
      assert items[i].TempFile() != p && items[i].Target(u, t) != p;
      assert SameAt(a, b, p) && SameAt(b, c, p);
    }
  }

  lemma MovesThenTemps(a: Disk, b: Disk, c: Disk, u: int, t: WallpaperType, items: seq<Item>)
    requires MovesOnly(a, b, u, t, items) && OnlyTemps(b, c, items)
    ensures MovesOnly(a, c, u, t, items)
  {
    forall p | !IsTempOf(items, p) && !IsTargetOf(items, u, t, p) ensures SameAt(a, c, p) {
      assert SameAt(a, b, p) && SameAt(b, c, p);
    }
  }

  lemma WrittenOnlyTemps(a: Disk, b: Disk, wallpaperType: int, items: seq<Item>)
    requires TempsWritten(a, b, wallpaperType, items)
    ensures OnlyTemps(a, b, items)
  {
  }

  lemma ValidType(a: Disk, b: Disk, wallpaperType: int, items: seq<Item>)
    requires |items| > 0 && TempsWritten(a, b, wallpaperType, items)
    ensures IsType(wallpaperType)
  {
    assert CheckValid(wallpaperType, items[0].length, RES_PICTURE) == NO_ERROR;
  }

  lemma SetAllHas(setup: Setup, a: State, b: State, u: int, t: WallpaperType, items: seq<Item>)
    requires SetAllDone(setup, a, b, u, t, items)
    ensures b.Has(u, t)
  {
  }

  // ----- a list whose directory is missing -----

  lemma TargetsMissing(d: Disk, u: int, t: WallpaperType, items: seq<Item>)
    requires IsTree(d) && GetWallpaperDir(u, t) !in d.dirs
    ensures forall p :: IsTargetOf(items, u, t, p) ==> !Exists(d, p)
  {
    assert forall i :: 0 <= i < |items| ==> items[i].Target(u, t).parent == GetWallpaperDir(u, t);
  }

  lemma StillMissing(a: Disk, b: Disk, u: int, t: WallpaperType)
    requires SlotMissing(a, u, t) && b.dirs <= a.dirs
    ensures GetWallpaperDir(u, t) !in b.dirs
  {
  }

  /** Without the directory nothing can be moved, and only temporary files change. */
  lemma NothingMovesThere(d1: Disk, d2: Disk, d3: Disk, u: int, t: WallpaperType, items: seq<Item>, cleared: bool)
    requires IsTree(d1) && IsTree(d2) && IsTree(d3) && d3.dirs <= d2.dirs && GetWallpaperDir(u, t) !in d1.dirs
    requires DirDeleted(d1, d2, GetWallpaperDir(u, t), false, cleared) && MovesOnly(d2, d3, u, t, items)
    ensures OnlyTemps(d1, d3, items) && (|items| > 0 ==> !AllMoved(d2, d3, u, t, items))
  {
    NothingToDelete(d1, d2, GetWallpaperDir(u, t), false, cleared);
    TargetsMissing(d2, u, t, items);
    TargetsMissing(d3, u, t, items);
    if |items| > 0 { assert IsTargetOf(items, u, t, items[0].Target(u, t)); }
  }

  lemma MissingFill(setup: Setup, a: State, d2: Disk, d: Disk, u: int, t: WallpaperType, items: seq<Item>)
    requires OnlyTemps(a.disk, d2, items)
    ensures Fill(setup, a.(disk := d2), u, t).(disk := d) == Fill(setup, a, u, t).(disk := d)
  {
    TempsAreTemps(items, u, t);
    Layout(u, t);
    SamePictures(setup, a.disk, d2, u, t);
  }

  /** The whole of it, down to the removal of the temporary files. */
  lemma MissingList(setup: Setup, a: State, d1: Disk, d2: Disk, d3: Disk, d4: Disk, u: int, t: WallpaperType,
                    items: seq<Item>, cleared: bool)
    requires IsTree(d1) && IsTree(d2) && IsTree(d3) && d3.dirs <= d2.dirs && GetWallpaperDir(u, t) !in d1.dirs
    requires OnlyTemps(a.disk, d1, items) && DirDeleted(d1, d2, GetWallpaperDir(u, t), false, cleared)
    requires MovesOnly(d2, d3, u, t, items) && OnlyTemps(d3, d4, items)
    ensures OnlyTemps(a.disk, d4, items) && (|items| > 0 ==> !AllMoved(d2, d3, u, t, items))
    ensures Fill(setup, a.(disk := d2), u, t).(disk := d4) == Fill(setup, a, u, t).(disk := d4)
  {
    NothingMovesThere(d1, d2, d3, u, t, items, cleared);
    NothingToDelete(d1, d2, GetWallpaperDir(u, t), false, cleared);
    hide OnlyTemps, MovesOnly, DirDeleted, IsTree, AllMoved;
    OnlyTempsTransitive(a.disk, d1, d3, items);
    OnlyTempsTransitive(a.disk, d3, d4, items);
    MissingFill(setup, a, d2, d4, u, t, items);
  }
}
