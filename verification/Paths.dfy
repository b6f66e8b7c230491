/** The file names and directories of the wallpaper service, and the strings they stand for.

    The service builds every path by gluing constant names and a decimal user id onto one base
    directory. `Path` keeps the structure of such a path and `Render` gives the string;
    `RenderInjective` shows that no two paths of the service share a string, so that a file can be
    identified by its `Path`. */
module Paths {
  datatype WallpaperType = System | Lockscreen
  datatype FoldState = Normal | Unfold1 | Unfold2
  datatype RotateState = Port | Land

  datatype Name =
    | User(id: int)
    | Kind(wallpaperType: WallpaperType)
    | StateFile
    | Picture(wallpaperType: WallpaperType, foldState: FoldState, rotateState: RotateState)
    | Live(wallpaperType: WallpaperType)
    | Package(wallpaperType: WallpaperType)
    | Original(wallpaperType: WallpaperType)
    | SetTemp
    | Temp(foldState: FoldState, rotateState: RotateState)
    | Other(text: string)

  /** `Empty` is the empty string, which the service uses for "no file"; `Outside` is an absolute
      path that is not below the wallpaper directory, such as a built-in picture. */
  datatype Path = Empty | Outside(text: string) | Base | Child(parent: Path, name: Name)

  const TMP: Path := Child(Base, SetTemp)

  function TempPath(f: FoldState, r: RotateState): Path {
    Child(Base, Temp(f, r))
  }

  function UserDir(userId: int): Path {
    Child(Base, User(userId))
  }

  function GetWallpaperDir(userId: int, t: WallpaperType): Path {
    Child(UserDir(userId), Kind(t))
  }

  function StatePath(userId: int): Path {
    Child(UserDir(userId), StateFile)
  }

  function PicturePath(userId: int, t: WallpaperType, f: FoldState, r: RotateState): Path {
    Child(GetWallpaperDir(userId, t), Picture(t, f, r))
  }

  function LivePath(userId: int, t: WallpaperType): Path {
    Child(GetWallpaperDir(userId, t), Live(t))
  }

  function PackagePath(userId: int, t: WallpaperType): Path {
    Child(GetWallpaperDir(userId, t), Package(t))
  }

  function OriginalPath(userId: int, t: WallpaperType): Path {
    Child(GetWallpaperDir(userId, t), Original(t))
  }

  predicate IsTemp(p: Path) {
    p.Child? && p.parent == Base && (p.name.SetTemp? || p.name.Temp?)
  }

  /** `p` is `d` itself or lies somewhere below it. */
  predicate Inside(p: Path, d: Path) {
    p == d || (p.Child? && Inside(p.parent, d))
  }

  predicate Below(p: Path, d: Path) {
    p.Child? && Inside(p.parent, d)
  }

  lemma {:induction false} InsideTransitive(p: Path, q: Path, d: Path)
    requires Inside(p, q) && Inside(q, d)
    ensures Inside(p, d)
  {
    if p != q {
      InsideTransitive(p.parent, q, d);
    }
  }

  function Depth(p: Path): nat {
    if p.Child? then 1 + Depth(p.parent) else 0
  }

  lemma {:induction false} InsideDepth(p: Path, d: Path)
    requires Inside(p, d)
    ensures Depth(d) <= Depth(p)
    ensures Depth(d) == Depth(p) ==> p == d
  {
    if p != d {
      InsideDepth(p.parent, d);
    }
  }

  /** Two directories of equal depth have nothing in common. */
  lemma {:induction false} InsideUnique(p: Path, d: Path, e: Path)
    requires Inside(p, d) && Inside(p, e) && Depth(d) == Depth(e)
    ensures d == e
  {
    if p == d {
      InsideDepth(d, e);
    } else if p == e {
      InsideDepth(e, d);
    } else {
      InsideUnique(p.parent, d, e);
    }
  }

  // ----- the strings -----

  function Digit(n: nat): char
    requires n < 10
  {
    ('0' as int + n) as char
  }

  function DecimalNat(n: nat): string {
    if n < 10 then [Digit(n)] else DecimalNat(n / 10) + [Digit(n % 10)]
  }

  /** std::to_string of an integer. */
  function Decimal(n: int): string {
    if n < 0 then "-" + DecimalNat(-n) else DecimalNat(n)
  }

  function Value(s: string): int {
    if s == [] then 0 else 10 * Value(s[..|s| - 1]) + (s[|s| - 1] as int - '0' as int)
  }

  lemma {:induction false} DecimalNatInverse(n: nat)
    ensures Value(DecimalNat(n)) == n
    ensures |DecimalNat(n)| > 0
    ensures forall i :: 0 <= i < |DecimalNat(n)| ==> '0' <= DecimalNat(n)[i] <= '9'
  {
    var s := DecimalNat(n);
    if n < 10 {
      assert s[..|s| - 1] == [];
    } else {
      DecimalNatInverse(n / 10);
      assert s[..|s| - 1] == DecimalNat(n / 10);
    }
  }

  lemma DecimalInjective(m: int, n: int)
    requires m != n
    ensures Decimal(m) != Decimal(n)
  {
    DecimalNatInverse(if m < 0 then -m else m);
    DecimalNatInverse(if n < 0 then -n else n);
    assert m < 0 ==> Decimal(m)[0] == '-' && Decimal(m)[1..] == DecimalNat(-m);
    assert n < 0 ==> Decimal(n)[0] == '-' && Decimal(n)[1..] == DecimalNat(-n);
    assert m >= 0 ==> Decimal(m)[0] != '-';
    assert n >= 0 ==> Decimal(n)[0] != '-';
  }

  function GetFoldStateName(f: FoldState): string {
    match f
    case Normal => "normal"
    case Unfold1 => "unfold1"
    case Unfold2 => "unfold2"
  }

  function GetRotateStateName(r: RotateState): string {
    match r
    case Port => "port"
    case Land => "land"
  }

  function TypeFileName(t: WallpaperType): string {
    if t.System? then "wallpaper_home" else "wallpaper_lock"
  }

  /** The name under which GetWallpaperDataFile installs a picture. */
  function WrittenName(t: WallpaperType, f: FoldState, r: RotateState): string {
    if f.Normal? && r.Port? then TypeFileName(t)
    else GetFoldStateName(f) + "_" + GetRotateStateName(r) + "_" + TypeFileName(t)
  }

  /** The name under which UpdataWallpaperMap looks for that picture after a restart. */
  function RestartName(t: WallpaperType, f: FoldState, r: RotateState): string {
    match (t, f, r)
    case (System, Normal, Port) => "wallpaper_home"
    case (System, Normal, Land) => "normal_land_wallpaper_home"
    case (System, Unfold1, Port) => "unfold1_port_wallpaper_home"
    case (System, Unfold1, Land) => "unfold1_land_wallpaper_home"
    case (System, Unfold2, Port) => "unfold2_port_wallpaper_home"
    case (System, Unfold2, Land) => "unfold2_land_wallpaper_home"
    case (Lockscreen, Normal, Port) => "wallpaper_lock"
    case (Lockscreen, Normal, Land) => "normal_land_wallpaper_lock"
    case (Lockscreen, Unfold1, Port) => "unfold1_port_wallpaper_lock"
    case (Lockscreen, Unfold1, Land) => "unfold1_land_wallpaper_lock"
    case (Lockscreen, Unfold2, Port) => "unfold2_port_wallpaper_lock"
    case (Lockscreen, Unfold2, Land) => "unfold2_land_wallpaper_lock"
  }

  lemma Unfold1HomeIsRead(r: RotateState)
    ensures WrittenName(System, Unfold1, r) == RestartName(System, Unfold1, r)
  {
    match r {
      case Port => assert WrittenName(System, Unfold1, r) == "unfold1_port_wallpaper_home";
      case Land => assert WrittenName(System, Unfold1, r) == "unfold1_land_wallpaper_home";
    }
  }

  lemma Unfold1LockIsRead(r: RotateState)
    ensures WrittenName(Lockscreen, Unfold1, r) == RestartName(Lockscreen, Unfold1, r)
  {
    match r {
      case Port => assert WrittenName(Lockscreen, Unfold1, r) == "unfold1_port_wallpaper_lock";
      case Land => assert WrittenName(Lockscreen, Unfold1, r) == "unfold1_land_wallpaper_lock";
    }
  }

  lemma Unfold2HomeIsRead(r: RotateState)
    ensures WrittenName(System, Unfold2, r) == RestartName(System, Unfold2, r)
  {
    match r {
      case Port => assert WrittenName(System, Unfold2, r) == "unfold2_port_wallpaper_home";
      case Land => assert WrittenName(System, Unfold2, r) == "unfold2_land_wallpaper_home";
    }
  }

  lemma Unfold2LockIsRead(r: RotateState)
    ensures WrittenName(Lockscreen, Unfold2, r) == RestartName(Lockscreen, Unfold2, r)
  {
    match r {
      case Port => assert WrittenName(Lockscreen, Unfold2, r) == "unfold2_port_wallpaper_lock";
      case Land => assert WrittenName(Lockscreen, Unfold2, r) == "unfold2_land_wallpaper_lock";
    }
  }

  /** A restart looks for each picture under the name it was installed under. */
  lemma WrittenIsRead(t: WallpaperType, f: FoldState, r: RotateState)
    ensures WrittenName(t, f, r) == RestartName(t, f, r)
  {
    match f {
      case Normal =>
        assert WrittenName(System, f, Land) == "normal_land_wallpaper_home";
        assert WrittenName(Lockscreen, f, Land) == "normal_land_wallpaper_lock";
      case Unfold1 => if t.System? { Unfold1HomeIsRead(r); } else { Unfold1LockIsRead(r); }
      case Unfold2 => if t.System? { Unfold2HomeIsRead(r); } else { Unfold2LockIsRead(r); }
    }
  }

  function NameText(n: Name): string {
    match n
    case User(id) => Decimal(id)
    case Kind(t) => if t.System? then "system" else "lockscreen"
    case StateFile => "wallpapercfg"
    case Picture(t, f, r) => RestartName(t, f, r)
    case Live(t) => if t.System? then "live_wallpaper_system_orig" else "live_wallpaper_lock_orig"
    case Package(t) => if t.System? then "custom_system.zip" else "custom_lock.zip"
    case Original(t) => if t.System? then "wallpaper_system_orig" else "wallpaper_lock_orig"
    case SetTemp => "fwsettmp"
    case Temp(f, r) => GetFoldStateName(f) + "_" + GetRotateStateName(r)
    case Other(text) => text
  }

  const BASE_TEXT := "/data/service/el1/public/wallpaper"

  function Render(p: Path): string {
    match p
    case Empty => ""
    case Outside(text) => text
    case Base => BASE_TEXT
    case Child(parent, name) => Render(parent) + "/" + NameText(name)
  }

  /** The directories and files the service itself names. */
  predicate IsServicePath(p: Path) {
    match p
    case Child(Base, n) => n.User? || n.SetTemp? || n.Temp?
    case Child(Child(Base, User(_)), n) => n.Kind? || n.StateFile?
    case Child(Child(Child(Base, User(_)), Kind(t)), n) =>
      (n.Picture? || n.Live? || n.Package? || n.Original?) && n.wallpaperType == t
    case _ => p == Base
  }

  predicate SlashFree(s: string) {
    '/' !in s
  }

  lemma NoSlashInTemps(f: FoldState, r: RotateState)
    ensures SlashFree(NameText(Temp(f, r)))
  {
    assert SlashFree(GetFoldStateName(f)) && SlashFree(GetRotateStateName(r)) && SlashFree("_");
  }

  lemma NoSlashInFileNames(t: WallpaperType)
    ensures SlashFree(TypeFileName(t))
  {
  }

  lemma NoSlashJoined(a: string, b: string)
    requires SlashFree(a) && SlashFree(b)
    ensures SlashFree(a + "_" + b)
  {
  }

  lemma NoSlashInPictures(t: WallpaperType, f: FoldState, r: RotateState)
    ensures SlashFree(RestartName(t, f, r))
  {
    WrittenIsRead(t, f, r);
    NoSlashInTemps(f, r);
    NoSlashInFileNames(t);
    hide RestartName, GetFoldStateName, GetRotateStateName, TypeFileName, SlashFree;
    NoSlashJoined(GetFoldStateName(f) + "_" + GetRotateStateName(r), TypeFileName(t));
  }

  lemma NoSlashInDirNames(t: WallpaperType)
    ensures SlashFree(NameText(Kind(t)))
  {
  }

  lemma NoSlashInOriginalNames(t: WallpaperType)
    ensures SlashFree(NameText(Original(t)))
  {
    assert SlashFree("wallpaper") && SlashFree("system_orig") && SlashFree("lock_orig");
    assert NameText(Original(t)) == "wallpaper" + "_" + (if t.System? then "system_orig" else "lock_orig");
    hide NameText;
    NoSlashJoined("wallpaper", if t.System? then "system_orig" else "lock_orig");
  }

  lemma NoSlashInLiveNames(t: WallpaperType)
    ensures SlashFree(NameText(Live(t)))
  {
    assert NameText(Live(t)) == if t.System? then "live_wallpaper_system_orig" else "live_wallpaper_lock_orig";
    hide NameText;
    assert SlashFree("live_wallpaper_system_orig") && SlashFree("live_wallpaper_lock_orig");
  }

  lemma NoSlashInPackageNames(t: WallpaperType)
    ensures SlashFree(NameText(Package(t)))
  {
    assert SlashFree("custom") && SlashFree("system.zip") && SlashFree("lock.zip");
    assert NameText(Package(t)) == "custom" + "_" + (if t.System? then "system.zip" else "lock.zip");
    hide NameText;
    NoSlashJoined("custom", if t.System? then "system.zip" else "lock.zip");
  }

  lemma NoSlash(n: Name)
    requires !n.Other?
    ensures SlashFree(NameText(n))
  {
    match n {
      case User(id) => DecimalNatInverse(if id < 0 then -id else id);
      case Picture(t, f, r) => NoSlashInPictures(t, f, r);
      case Temp(f, r) => NoSlashInTemps(f, r);
      case StateFile => assert SlashFree("wallpapercfg");
      case SetTemp => assert SlashFree("fwsettmp");
      case Kind(t) => NoSlashInDirNames(t);
      case Live(t) => NoSlashInLiveNames(t);
      case Package(t) => NoSlashInPackageNames(t);
      case Original(t) => NoSlashInOriginalNames(t);
      case Other(_) =>
    }
  }

  lemma TempNamesDiffer(f: FoldState, r: RotateState, f': FoldState, r': RotateState)
    requires (f, r) != (f', r')
    ensures NameText(Temp(f, r)) != NameText(Temp(f', r'))
  {
    var s, t := NameText(Temp(f, r)), NameText(Temp(f', r'));
    if |s| == |t| {
      assert s[6] != t[6] || s[|s| - 4] != t[|t| - 4];
    }
  }

  /** Length, and the seventh and ninth characters, tell the six pictures of a type apart. */
  lemma PictureNamesDiffer(t: WallpaperType, f: FoldState, r: RotateState, f': FoldState, r': RotateState)
    requires (f, r) != (f', r')
    ensures RestartName(t, f, r) != RestartName(t, f', r')
  {
  }

  lemma PictureIsNotOther(t: WallpaperType, f: FoldState, r: RotateState, m: Name)
    requires m == Live(t) || m == Package(t) || m == Original(t)
    ensures RestartName(t, f, r) != NameText(m)
  {
  }

  lemma TempIsNotUser(n: Name, id: int)
    requires n.SetTemp? || n.Temp?
    ensures NameText(n) != Decimal(id)
  {
    DecimalNatInverse(if id < 0 then -id else id);
    var c := NameText(n)[0];
    assert c == 'f' || c == 'n' || c == 'u';
    assert Decimal(id)[0] == '-' || '0' <= Decimal(id)[0] <= '9';
  }

  lemma BaseNamesDiffer(n: Name, m: Name)
    requires n.User? || n.SetTemp? || n.Temp?
    requires m.User? || m.SetTemp? || m.Temp?
    requires n != m
    ensures NameText(n) != NameText(m)
  {
    if n.User? && m.User? {
      DecimalInjective(n.id, m.id);
    } else if n.User? {
      TempIsNotUser(m, n.id);
    } else if m.User? {
      TempIsNotUser(n, m.id);
    } else if n.Temp? && m.Temp? {
      TempNamesDiffer(n.foldState, n.rotateState, m.foldState, m.rotateState);
    }
  }

  lemma TypeNamesDiffer(t: WallpaperType, n: Name, m: Name)
    requires n.Picture? || n.Live? || n.Package? || n.Original?
    requires m.Picture? || m.Live? || m.Package? || m.Original?
    requires n.wallpaperType == t == m.wallpaperType
    requires n != m
    ensures NameText(n) != NameText(m)
  {
    hide RestartName;
    if n.Picture? && m.Picture? {
      PictureNamesDiffer(t, n.foldState, n.rotateState, m.foldState, m.rotateState);
    } else if n.Picture? {
      PictureIsNotOther(t, n.foldState, n.rotateState, m);
    } else if m.Picture? {
      PictureIsNotOther(t, m.foldState, m.rotateState, n);
    }
  }

  /** Siblings among the service's own names have different texts. */
  lemma SiblingNamesDiffer(d: Path, n: Name, m: Name)
    requires IsServicePath(Child(d, n)) && IsServicePath(Child(d, m)) && n != m
    ensures NameText(n) != NameText(m)
  {
    hide RestartName, GetFoldStateName, GetRotateStateName;
    if d == Base {
      BaseNamesDiffer(n, m);
    } else if d.parent != Base {
      TypeNamesDiffer(d.name.wallpaperType, n, m);
    }
  }

  lemma LastComponent(s: string, n: string, t: string, m: string)
    requires s + "/" + n == t + "/" + m
    requires SlashFree(n) && SlashFree(m)
    ensures s == t && n == m
  {
    var whole := s + "/" + n;
    assert whole[|s|] == '/' && whole[|t|] == '/';
    assert forall i :: |s| < i < |whole| ==> whole[i] == n[i - |s| - 1];
    assert forall i :: |t| < i < |whole| ==> whole[i] == m[i - |t| - 1];
    assert |s| == |t|;
    assert s == whole[..|s|] && n == whole[|s| + 1..];
    assert t == whole[..|t|] && m == whole[|t| + 1..];
  }

  lemma {:induction false} RenderedInBase(p: Path)
    requires IsServicePath(p)
    ensures |Render(p)| >= |BASE_TEXT|
    ensures |Render(p)| == |BASE_TEXT| ==> p == Base
  {
    hide NameText;
    if p != Base {
      RenderedInBase(p.parent);
    }
  }

  /** Different directories and files of the service have different path strings. */
  lemma {:induction false} RenderInjective(p: Path, q: Path)
    requires IsServicePath(p) && IsServicePath(q)
    ensures Render(p) == Render(q) <==> p == q
  {
    hide NameText;
    RenderedInBase(p);
    RenderedInBase(q);
    if Render(p) == Render(q) && p != Base && q != Base {
      NoSlash(p.name);
      NoSlash(q.name);
      LastComponent(Render(p.parent), NameText(p.name), Render(q.parent), NameText(q.name));
      RenderInjective(p.parent, q.parent);
      if p.name != q.name {
        SiblingNamesDiffer(p.parent, p.name, q.name);
      }
    }
  }

  /** The path string of a picture determines its user, its type and its screen state. */
  lemma PicturePathsDiffer(u: int, t: WallpaperType, f: FoldState, r: RotateState,
                           u': int, t': WallpaperType, f': FoldState, r': RotateState)
    ensures Render(PicturePath(u, t, f, r)) == Render(PicturePath(u', t', f', r'))
            <==> u == u' && t == t' && f == f' && r == r'
  {
    hide Render;
    RenderInjective(PicturePath(u, t, f, r), PicturePath(u', t', f', r'));
  }
}
