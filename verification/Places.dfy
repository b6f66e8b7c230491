/** Where things lie: the trees of users and slots are apart, and a slot depends on its own tree only. */
module Places {
  import opened Paths
  import opened FileDeal
  import opened ServiceState

  lemma TempsOutsideUsers(p: Path, u: int)
    requires IsTemp(p)
    ensures !Inside(p, UserDir(u))
  {
    assert !Inside(Base, UserDir(u));
  }

  lemma TypeDirInUserDir(p: Path, u: int, t: WallpaperType)
    requires Below(p, GetWallpaperDir(u, t))
    ensures Inside(p, UserDir(u)) && p != UserDir(u) && p != StatePath(u) && !IsTemp(p)
    ensures forall k :: p != GetWallpaperDir(u, k)
  {
    var dir := GetWallpaperDir(u, t);
    assert Inside(dir.parent, UserDir(u)) && Inside(dir, UserDir(u));
    InsideTransitive(p.parent, dir, UserDir(u));
    InsideDepth(p.parent, dir);
    assert Depth(dir) == 2 by { assert Depth(UserDir(u)) == 1; }
    assert Depth(p) >= 3;
    forall k ensures p != GetWallpaperDir(u, k) {
      assert Depth(UserDir(u)) == 1;
      assert Depth(GetWallpaperDir(u, k)) == 2;
    }
    assert Depth(UserDir(u)) == 1 && Depth(StatePath(u)) == 2;
  }

  /** Files of the service lie in their own user's and type's directory and in no other. */
  lemma Layout(u: int, t: WallpaperType)
    ensures forall f, r :: Below(PicturePath(u, t, f, r), GetWallpaperDir(u, t))
    ensures Below(LivePath(u, t), GetWallpaperDir(u, t)) && Below(PackagePath(u, t), GetWallpaperDir(u, t))
    ensures forall p :: Below(p, GetWallpaperDir(u, t)) ==> Inside(p, UserDir(u)) && p != StatePath(u) && !IsTemp(p)
    ensures Inside(StatePath(u), UserDir(u)) && !Below(StatePath(u), GetWallpaperDir(u, t))
    ensures forall p :: IsTemp(p) ==> !Inside(p, UserDir(u))
    ensures IsTemp(TMP) && forall f, r :: IsTemp(TempPath(f, r))
  {
    var dir := GetWallpaperDir(u, t);
    assert Inside(dir, dir);
    forall p | Below(p, dir) ensures Inside(p, UserDir(u)) && p != StatePath(u) && !IsTemp(p) {
      TypeDirInUserDir(p, u, t);
    }
    forall p | IsTemp(p) ensures !Inside(p, UserDir(u)) {
      TempsOutsideUsers(p, u);
    }
    assert Inside(UserDir(u), UserDir(u));
  }

  lemma DistinctUsers(p: Path, u: int, v: int)
    requires Inside(p, UserDir(u)) && Inside(p, UserDir(v))
    ensures u == v
  {
    assert Depth(UserDir(u)) == 1 == Depth(UserDir(v));
    InsideUnique(p, UserDir(u), UserDir(v));
  }

  lemma DistinctTypes(p: Path, u: int, t: WallpaperType, v: int, k: WallpaperType)
    requires Inside(p, GetWallpaperDir(u, t)) && Inside(p, GetWallpaperDir(v, k))
    ensures u == v && t == k
  {
    assert Depth(UserDir(u)) == 1 == Depth(UserDir(v));
    InsideUnique(p, GetWallpaperDir(u, t), GetWallpaperDir(v, k));
  }

  /** The picture paths of a slot look the same on two disks that agree there. */
  lemma SamePictures(setup: Setup, a: Disk, b: Disk, u: int, t: WallpaperType)
    requires forall f, r :: SameAt(a, b, PicturePath(u, t, f, r))
    ensures Rebuild(setup, a, u, t) == Rebuild(setup, b, u, t)
  {
    assert SameAt(a, b, PicturePath(u, t, Normal, Port)) && SameAt(a, b, PicturePath(u, t, Normal, Land));
    assert SameAt(a, b, PicturePath(u, t, Unfold1, Port)) && SameAt(a, b, PicturePath(u, t, Unfold1, Land));
    assert SameAt(a, b, PicturePath(u, t, Unfold2, Port)) && SameAt(a, b, PicturePath(u, t, Unfold2, Land));
  }

  lemma OtherDirUntouched(a: Disk, b: Disk, u: int, t: WallpaperType)
    requires Touched(a, b, u, t)
    ensures forall f, r :: SameAt(a, b, PicturePath(u, OtherType(t), f, r))
  {
    var k := OtherType(t);
    Layout(u, k);
    forall f, r ensures SameAt(a, b, PicturePath(u, k, f, r)) {
      var p := PicturePath(u, k, f, r);
      if Below(p, GetWallpaperDir(u, t)) { DistinctTypes(p, u, t, u, k); }
    }
  }

  lemma UserDirsInside(u: int)
    ensures forall p :: p in UserDirs(u) ==> Inside(p, UserDir(u)) && p != StatePath(u)
    ensures Inside(StatePath(u), UserDir(u))
  {
    assert Inside(UserDir(u), UserDir(u));
    forall p | p in UserDirs(u) ensures Inside(p, UserDir(u)) && p != StatePath(u) {
      assert p == UserDir(u) || p.parent == UserDir(u);
    }
  }
}
