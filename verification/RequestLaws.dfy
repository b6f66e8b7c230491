/** What a caller sees of a single request: in which order it is refused, which built-in pictures stand in, and
    which bytes are stored under which name. */
module RequestLaws {
  import opened Paths
  import opened FileDeal
  import opened StateFile
  import opened ServiceState
  import opened ServiceRuns

  // ----- refusals -----

  /** A set is refused for a user that is not allowed, then for its type, then for its length; a source that
      cannot be read fails it. Nothing changes. */
  lemma SetRefusals(setup: Setup, a: State, q: Request, code: ErrorCode, b: State)
    requires q.Set? && Step(setup, a, q, code, b)
    ensures !q.allowed ==> code == E_USER_IDENTITY_ERROR && b == a
    ensures q.allowed && q.wallpaperType != 0 && q.wallpaperType != 1 ==> code == E_PARAMETERS_INVALID && b == a
    ensures q.allowed && q.length <= 0 ==> code == E_PARAMETERS_INVALID && b == a
    ensures var valid := q.allowed && (q.wallpaperType == 0 || q.wallpaperType == 1) && q.length > 0;
            var fits := q.length <= if q.res == RES_VIDEO then 104857600 else 52428800;
            (valid && !fits ==> code == E_PICTURE_OVERSIZED && b == a) &&
            (valid && fits && q.content == [] ==> (code == E_DEAL_FAILED || code == E_NO_MEMORY) && b == a) &&
            (valid && fits && q.content != [] ==> code == NO_ERROR || code == E_DEAL_FAILED || code == E_NO_MEMORY)
  {
    hide SetDone, Refused, Spoiled, Wiped, IsTree;
  }

  /** A package is refused to what is no system application, then without permission, then for its type. Without
      the scene board it is refused, too, once a missing entry was filled in. */
  lemma CustomRefusals(setup: Setup, a: State, q: Request, code: ErrorCode, b: State)
    requires q.Custom? && Step(setup, a, q, code, b)
    ensures !q.caller.systemApp ==> code == E_NOT_SYSTEM_APP && b == a
    ensures q.caller.systemApp && !q.caller.canSet ==> code == E_NO_PERMISSION && b == a
    ensures q.caller.systemApp && q.caller.canSet && q.wallpaperType != 0 && q.wallpaperType != 1 ==>
              code == E_PARAMETERS_INVALID && b == a
    ensures var passed := q.caller.systemApp && q.caller.canSet && (q.wallpaperType == 0 || q.wallpaperType == 1);
            (passed && !q.caller.sceneBoard ==>
               code == E_NO_PERMISSION && b.disk == a.disk && b.issued == a.issued && Grew(a, b, q.userId)) &&
            (passed && q.caller.sceneBoard && !q.caller.userAllowed ==>
               code == E_USER_IDENTITY_ERROR || code == E_DEAL_FAILED)
  {
    hide SetDone, Refused, Spoiled, Wiped, IsTree, WithPackage, StateSaved, Fill, Grew;
    FilledOnce(setup, a, q.userId, TypeOf(q.wallpaperType));
  }

  lemma FilledOnce(setup: Setup, a: State, u: int, t: WallpaperType)
    ensures var f := Fill(setup, a, u, t); f.disk == a.disk && f.issued == a.issued && Grew(a, f, u)
  {
    RebuildIsFresh(setup, a.disk, u, t);
  }

  /** A reset is refused without permission, then for its type, then for a user that is not allowed. */
  lemma ResetRefusals(setup: Setup, a: State, q: Request, code: ErrorCode, b: State)
    requires q.Reset? && Step(setup, a, q, code, b)
    ensures !q.caller.canSet ==> code == E_NO_PERMISSION && b == a
    ensures q.caller.canSet && q.wallpaperType != 0 && q.wallpaperType != 1 ==> code == E_PARAMETERS_INVALID && b == a
    ensures q.caller.canSet && (q.wallpaperType == 0 || q.wallpaperType == 1) && !q.caller.userAllowed ==>
              code == E_USER_IDENTITY_ERROR && b == a
    ensures q.caller.canSet && (q.wallpaperType == 0 || q.wallpaperType == 1) && q.caller.userAllowed ==>
              code == NO_ERROR || code == E_DEAL_FAILED
  {
    hide ResetDone, Spoiled, IsTree;
  }

  /** A list is refused when it is empty or its length is not the number of descriptors, then to what is neither
      a system application nor a native one, then without permission, then for a user that is not allowed. */
  lemma SetAllRefusals(setup: Setup, a: State, q: Request, code: ErrorCode, b: State)
    requires q.SetAll? && Step(setup, a, q, code, b)
    ensures |q.items| != q.fdCount || |q.items| == 0 ==> code == E_DEAL_FAILED && b == a
    ensures |q.items| == q.fdCount > 0 ==>
              var known := q.caller.systemApp || q.caller.nativeSa;
              (!known ==> code == E_NOT_SYSTEM_APP && b == a) &&
              (known && !q.caller.canSet ==> code == E_NO_PERMISSION && b == a) &&
              (known && q.caller.canSet && !q.caller.userAllowed ==> code == E_USER_IDENTITY_ERROR && b == a)
  {
    hide SetAllDone, Refused, Spoiled, IsTree;
  }

  // ----- built-in pictures -----

  /** The picture of the theme for one state of a screen; where it has no portrait, the fallback file stands in. */
  function ThemePath(setup: Setup, t: WallpaperType, f: FoldState, r: RotateState): Path {
    match t
    case System =>
      if f == Normal && r == Port && setup.home.At(f, r) == Empty then setup.homeFallback else setup.home.At(f, r)
    case Lockscreen =>
      if f == Normal && r == Port && setup.lock.At(f, r) == Empty then setup.lockFallback else setup.lock.At(f, r)
  }

  ghost predicate ShowsTheme(setup: Setup, ps: Pictures, t: WallpaperType) {
    forall f, r :: ps.At(f, r) == ThemePath(setup, t, f, r)
  }

  lemma DefaultIsTheme(setup: Setup, t: WallpaperType)
    ensures ShowsTheme(setup, GetWallpaperDefaultPath(setup, t), t)
  {
  }

  /** After a successful reset the home screen has the home pictures of the theme and the lock screen those for
      the lock screen; nothing is stored for it, and its entry is built-in and has no id. */
  lemma ResetShowsTheme(setup: Setup, a: State, q: Request, b: State)
    requires q.Reset? && Step(setup, a, q, NO_ERROR, b)
    ensures b.Has(q.userId, TypeOf(q.wallpaperType)) && (q.wallpaperType == 0 || q.wallpaperType == 1)
    ensures ShowsTheme(setup, b.At(q.userId, TypeOf(q.wallpaperType)).pictures,
                       if q.wallpaperType == 0 then System else Lockscreen)
    ensures b.At(q.userId, TypeOf(q.wallpaperType)).resourceType == RES_DEFAULT
    ensures b.At(q.userId, TypeOf(q.wallpaperType)).wallpaperId == -1 && b.issued == a.issued
    ensures forall p :: Below(p, GetWallpaperDir(q.userId, TypeOf(q.wallpaperType))) ==> !Exists(b.disk, p)
  {
    hide Rebuild, IsTree;
    DefaultIsTheme(setup, TypeOf(q.wallpaperType));
  }

  /** So has every entry that is rebuilt while the portrait is not on disk, whether a read, a start or a switch
      rebuilds it. */
  lemma RebuiltShowsTheme(setup: Setup, b: State, x: Slot)
    requires IsRebuilt(setup, b, x) && !Exists(b.disk, PicturePath(x.userId, x.wallpaperType, Normal, Port))
    ensures ShowsTheme(setup, b.entries[x].pictures, x.wallpaperType)
  {
    DefaultIsTheme(setup, x.wallpaperType);
  }

  /** So have both entries of a user that was set up. */
  lemma SetUpShowsTheme(setup: Setup, b: State, u: int, t: WallpaperType)
    requires InitDone(setup, b, u)
    ensures ShowsTheme(setup, b.At(u, t).pictures, t)
  {
    assert b.Has(u, t) && b.At(u, t) == Rebuild(setup, b.disk, u, t);
    var p := PicturePath(u, t, Normal, Port);
    assert Inside(p, UserDir(u)) && !Exists(b.disk, p) by {
      assert p.parent.parent == UserDir(u);
      assert Inside(p.parent.parent, UserDir(u)) && Inside(p.parent, UserDir(u));
    }
    DefaultIsTheme(setup, t);
  }

  // ----- stored bytes -----

  /** A successful set stores, under the name for its kind, the bytes that could be read, then zeros up to the
      length that was named, then whatever a longer temporary file had there. Nothing else is stored for the
      screen. */
  lemma StoredBytes(setup: Setup, a: State, q: Request, b: State, i: nat)
    requires q.Set? && Step(setup, a, q, NO_ERROR, b)
    ensures var p := match q.res
                     case RES_VIDEO => LivePath(q.userId, TypeOf(q.wallpaperType))
                     case RES_PACKAGE => PackagePath(q.userId, TypeOf(q.wallpaperType))
                     case _ => PicturePath(q.userId, TypeOf(q.wallpaperType), Normal, Port);
            p in b.disk.files &&
            var stored, left := b.disk.files[p], Content(a.disk, TMP);
            |stored| == (if q.length < |left| then |left| else q.length) &&
            (i < |stored| ==>
               stored[i] == if i < q.length then if i < |q.content| then q.content[i] else 0 as char else left[i]) &&
            forall o :: o != p && Below(o, GetWallpaperDir(q.userId, TypeOf(q.wallpaperType))) ==> !Exists(b.disk, o)
  {
    hide OtherUsersKept, BothPresent, IsTree, NewText;
    OverwriteAt(Content(a.disk, TMP), Buffered(q.content, q.length), i);
    BufferedAt(q.content, q.length, i);
    hide Overwrite, Buffered;
  }

  /** So does a successful list for each of its items, under the name of its screen state. */
  lemma StoredList(setup: Setup, a: State, q: Request, b: State, j: nat, i: nat)
    requires q.SetAll? && Step(setup, a, q, NO_ERROR, b) && j < |q.items|
    ensures var item := q.items[j];
            var p := PicturePath(q.userId, TypeOf(q.wallpaperType), item.foldState, item.rotateState);
            p in b.disk.files && item.length > 0 &&
            var stored, left := b.disk.files[p], Content(a.disk, TempPath(item.foldState, item.rotateState));
            |stored| == (if item.length < |left| then |left| else item.length) &&
            (i < |stored| ==>
               stored[i] == if i < item.length then if i < |item.content| then item.content[i] else 0 as char
                            else left[i])
  {
    hide DistinctScreens, IsTree, PicturesSet;
    var item := q.items[j];
    assert item.length > 0 && item.Target(q.userId, TypeOf(q.wallpaperType)) in b.disk.files;
    OverwriteAt(Content(a.disk, item.TempFile()), item.Buffer(), i);
    BufferedAt(item.content, item.length, i);
    hide Overwrite, Buffered;
  }

  // ----- entries -----

  /** An entry that names this portrait and no other picture, so that every screen is shown the portrait. */
  ghost predicate PortraitOnly(e: WallpaperData, portrait: Path) {
    (forall f, r :: e.pictures.At(f, r) == if f == Normal && r == Port then portrait else Empty) &&
    forall foldState: int, rotateState: int :: 0 <= foldState <= 2 ==>
      GetWallpaperPath(foldState, rotateState, e.pictures) == portrait
  }

  /** What the entry showed in portrait, or would have shown had it been there. */
  ghost predicate WasPortrait(setup: Setup, a: State, u: int, t: WallpaperType, p: Path) {
    if a.Has(u, t) then p == a.At(u, t).pictures.At(Normal, Port)
    else if Exists(a.disk, PicturePath(u, t, Normal, Port)) then p == PicturePath(u, t, Normal, Port)
    else p == ThemePath(setup, t, Normal, Port)
  }

  lemma OnlyOne(e: WallpaperData, portrait: Path)
    requires e.pictures == Pictures(portrait, Empty, Empty, Empty, Empty, Empty)
    ensures PortraitOnly(e, portrait)
  {
  }

  /** A successful set publishes its kind of wallpaper under a new id. A picture becomes the portrait; a video or
      a package leaves the portrait that was known, or the one of the theme. No other picture is kept, and the
      entry of the other screen stays. */
  lemma SetPublishes(setup: Setup, a: State, q: Request, b: State)
    requires q.Set? && Step(setup, a, q, NO_ERROR, b)
    ensures var u, t := q.userId, if q.wallpaperType == 0 then System else Lockscreen;
            && b.Has(u, t) && b.At(u, t).resourceType == q.res && b.At(u, t).wallpaperId == NextId(a.wallpaperId)
            && (q.res == RES_PICTURE ==> PortraitOnly(b.At(u, t), PicturePath(u, t, Normal, Port)))
            && (q.res == RES_VIDEO || q.res == RES_PACKAGE ==>
                  PortraitOnly(b.At(u, t), if a.Has(u, t) then a.At(u, t).pictures.At(Normal, Port)
                                           else ThemePath(setup, t, Normal, Port)))
            && (forall k :: k != t && a.Has(u, k) ==> b.Has(u, k) && b.At(u, k) == a.At(u, k))
  {
    DefaultIsTheme(setup, TypeOf(q.wallpaperType));
    hide Installed, OtherUsersKept, IsTree, Rebuild, GetWallpaperDefaultPath, ThemePath;
    var u, t := q.userId, if q.wallpaperType == 0 then System else Lockscreen;
    OnlyOne(b.At(u, t), b.At(u, t).pictures.wallpaperFile);
    hide PortraitOnly;
  }

  /** A package that passed the checks of its caller, once its id was drawn, is published whatever became of its
      file: its entry keeps the portrait of before and no other picture. */
  lemma PackagePublishes(setup: Setup, a: State, q: Request, code: ErrorCode, b: State)
    requires q.Custom? && Step(setup, a, q, code, b) && b.issued > a.issued
    ensures var u, t := q.userId, if q.wallpaperType == 0 then System else Lockscreen;
            && b.Has(u, t) && b.At(u, t).resourceType == RES_PACKAGE && b.At(u, t).wallpaperId == b.wallpaperId
            && WasPortrait(setup, a, u, t, b.At(u, t).pictures.At(Normal, Port))
            && PortraitOnly(b.At(u, t), b.At(u, t).pictures.At(Normal, Port))
  {
    hide SetOutcome, IsTree, StateSaved, Rebuild, GetWallpaperDefaultPath, Current, PortraitOnly, WithPackage,
      WasPortrait, Fill;
    var u, t := q.userId, TypeOf(q.wallpaperType);
    FilledOnce(setup, a, u, t);
    var m, n :| StateSaved(setup, a, m, u, t, RES_PACKAGE) && IsTree(m.disk) &&
                SetOutcome(setup, m, n, u, q.caller.userAllowed, q.content, q.wallpaperType, q.length, RES_PACKAGE,
                           code) &&
                b == WithPackage(setup, a, n, u, t);
    PackageKeepsPortrait(setup, a, n, u, t);
  }

  lemma PackageKeepsPortrait(setup: Setup, a: State, n: State, u: int, t: WallpaperType)
    ensures var b := WithPackage(setup, a, n, u, t);
            && b.Has(u, t) && b.At(u, t).resourceType == RES_PACKAGE && b.At(u, t).wallpaperId == b.wallpaperId
            && WasPortrait(setup, a, u, t, b.At(u, t).pictures.At(Normal, Port))
            && PortraitOnly(b.At(u, t), b.At(u, t).pictures.At(Normal, Port))
  {
    DefaultIsTheme(setup, t);
    hide GetWallpaperDefaultPath, ThemePath;
    var b := WithPackage(setup, a, n, u, t);
    OnlyOne(b.At(u, t), b.At(u, t).pictures.wallpaperFile);
    hide PortraitOnly;
  }

  /** A successful list publishes a picture entry under a new id that names the listed pictures and, where the
      normal portrait is not listed, the portrait of before; no other picture is kept. */
  lemma ListPublishes(setup: Setup, a: State, q: Request, b: State, f: FoldState, r: RotateState)
    requires q.SetAll? && Step(setup, a, q, NO_ERROR, b)
    ensures var u, t := q.userId, if q.wallpaperType == 0 then System else Lockscreen;
            && b.Has(u, t) && b.At(u, t).resourceType == RES_PICTURE
            && b.At(u, t).wallpaperId == NextId(a.wallpaperId)
            && var listed := exists i :: 0 <= i < |q.items| && q.items[i].foldState == f && q.items[i].rotateState == r;
               var p := b.At(u, t).pictures.At(f, r);
               && (listed ==> p == PicturePath(u, t, f, r))
               && (!listed && (f != Normal || r != Port) ==> p == Empty)
               && (!listed && f == Normal && r == Port && a.Has(u, t) ==> p == a.At(u, t).pictures.At(Normal, Port))
  {
    hide DistinctScreens, IsTree, Below, SameAt, Overwrite;
    var u, t := q.userId, TypeOf(q.wallpaperType);
    var portrait :| IsPortrait(portrait, Slot(u, t)) &&
                    (a.Has(u, t) ==> portrait == a.At(u, t).pictures.wallpaperFile) &&
                    PicturesSet(Only(portrait), b.At(u, t).pictures, u, t, q.items);
    assert Listed(q.items, f, r) <==>
           exists i :: 0 <= i < |q.items| && q.items[i].foldState == f && q.items[i].rotateState == r by {
      if i :| 0 <= i < |q.items| && q.items[i].foldState == f && q.items[i].rotateState == r {
        assert IsFor(q.items[i], f, r);
      }
    }
    assert b.At(u, t).pictures.At(f, r) ==
           if Listed(q.items, f, r) then PicturePath(u, t, f, r) else Only(portrait).At(f, r);
  }

  // ----- names and numbers -----

  /** Where things are stored, as the file system sees it. */
  lemma KnownNames(u: int)
    ensures Render(Base) == "/data/service/el1/public/wallpaper"
    ensures Render(TMP) == Render(Base) + "/" + "fwsettmp"
    ensures Render(UserDir(u)) == Render(Base) + "/" + Decimal(u) && Decimal(100) == "100"
    ensures Render(StatePath(u)) == Render(UserDir(u)) + "/" + "wallpapercfg"
    ensures Render(GetWallpaperDir(u, System)) == Render(UserDir(u)) + "/" + "system"
    ensures Render(GetWallpaperDir(u, Lockscreen)) == Render(UserDir(u)) + "/" + "lockscreen"
    ensures Render(LivePath(u, System)) == Render(GetWallpaperDir(u, System)) + "/" + "live_wallpaper_system_orig"
    ensures Render(LivePath(u, Lockscreen)) == Render(GetWallpaperDir(u, Lockscreen)) + "/" + "live_wallpaper_lock_orig"
    ensures Render(PackagePath(u, System)) == Render(GetWallpaperDir(u, System)) + "/" + "custom_system.zip"
    ensures Render(PackagePath(u, Lockscreen)) == Render(GetWallpaperDir(u, Lockscreen)) + "/" + "custom_lock.zip"
  {
    assert DecimalNat(1) == "1" && DecimalNat(10) == "10";
  }
}
