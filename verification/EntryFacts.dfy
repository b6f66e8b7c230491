/** Entries that are filled in from the disk. */
module EntryFacts {
  import opened Paths
  import opened FileDeal
  import opened StateFile
  import opened ServiceState
  import opened Places

  lemma FillFacts(setup: Setup, s: State, u: int, t: WallpaperType)
    ensures var f := Fill(setup, s, u, t);
            f.Has(u, t) && f.At(u, t) == Current(setup, s, u, t) &&
            f == s.(entries := f.entries) &&
            forall x: Slot :: x != Slot(u, t) ==> SameEntry(s, f, x)
  {
    hide Rebuild;
  }

  lemma FillBothFacts(setup: Setup, s: State, u: int)
    ensures var f := FillBoth(setup, s, u);
            (forall k :: f.Has(u, k) && f.At(u, k) == Current(setup, s, u, k)) &&
            f == s.(entries := f.entries) &&
            forall x: Slot :: x.userId != u ==> SameEntry(s, f, x)
  {
    hide Rebuild;
    FillFacts(setup, s, u, System);
    var m := Fill(setup, s, u, System);
    FillFacts(setup, m, u, Lockscreen);
    assert SameEntry(s, m, Slot(u, Lockscreen));
    assert SameEntry(m, FillBoth(setup, s, u), Slot(u, System));
    assert Current(setup, m, u, Lockscreen) == Current(setup, s, u, Lockscreen);
    var f := FillBoth(setup, s, u);
    forall k ensures f.Has(u, k) && f.At(u, k) == Current(setup, s, u, k) {
      assert k == System || k == Lockscreen;
    }
    forall x: Slot | x.userId != u ensures SameEntry(s, f, x) {
      assert SameEntry(s, m, x) && SameEntry(m, f, x);
    }
  }

  lemma EntriesAreOk(a: State, u: int, t: WallpaperType)
    requires WellFormed(a)
    ensures a.Has(u, t) ==> EntryOk(a.At(u, t), Slot(u, t))
  {
  }

  lemma RebuiltDefault(setup: Setup, d: Disk, u: int, t: WallpaperType)
    requires !Exists(d, PicturePath(u, t, Normal, Port))
    ensures PicturesFor(setup, d, u, t) == GetWallpaperDefaultPath(setup, t)
  {
  }

  lemma SameTextAcross(setup: Setup, a: State, b: State, u: int, t: WallpaperType, res: ResourceType)
    requires a.entries == b.entries
    ensures NewText(setup, a, u, t, res) == NewText(setup, b, u, t, res)
  {
  }

  lemma WellFormedTree(s: State)
    requires WellFormed(s)
    ensures IsTree(s.disk)
  {
  }

  lemma SameTextFilled(setup: Setup, a: State, d: Disk, u: int, t: WallpaperType, res: ResourceType)
    ensures NewText(setup, Fill(setup, a, u, t).(disk := d), u, t, res) == NewText(setup, a, u, t, res)
    ensures |NewText(setup, a, u, t, res)| == StateLength(setup.template)
  {
    hide PicturesFor;
    FillFacts(setup, a, u, t);
    assert SameEntry(a, Fill(setup, a, u, t), Slot(u, OtherType(t)));
  }

  lemma FilledGrew(setup: Setup, a: State, d: Disk, u: int)
    ensures Grew(a, FillBoth(setup, a, u).(disk := d), u)
  {
    FillBothFacts(setup, a, u);
    hide FillBoth, Rebuild, IsFresh;
    var f := FillBoth(setup, a, u);
    forall x: Slot
      ensures x in a.entries ==> x in f.entries && f.entries[x] == a.entries[x]
      ensures x in f.entries && x !in a.entries ==> x.userId == u && IsFresh(f.entries[x], x)
    {
      if x.userId == u {
        RebuildIsFresh(setup, a.disk, u, x.wallpaperType);
        assert x == Slot(u, x.wallpaperType) && f.At(u, x.wallpaperType) == Current(setup, a, u, x.wallpaperType);
      } else {
        assert SameEntry(a, f, x);
      }
    }
  }

  /** What a restart would rebuild does not depend on the state file. */
  lemma RebuiltElsewhere(setup: Setup, a: Disk, b: Disk, u: int)
    requires forall p :: p != StatePath(u) ==> SameAt(a, b, p)
    ensures forall k :: Rebuild(setup, a, u, k) == Rebuild(setup, b, u, k)
  {
    forall k ensures Rebuild(setup, a, u, k) == Rebuild(setup, b, u, k) {
      forall f, r ensures SameAt(a, b, PicturePath(u, k, f, r)) {}
      SamePictures(setup, a, b, u, k);
    }
  }

  lemma FilledWellFormed(setup: Setup, a: State, d: Disk, u: int)
    requires WellFormed(a) && IsTree(d)
    ensures WellFormed(FillBoth(setup, a, u).(disk := d))
  {
    hide FillBoth, Rebuild;
    FillBothFacts(setup, a, u);
    var f := FillBoth(setup, a, u);
    forall x: Slot | x in f.entries ensures EntryOk(f.entries[x], x) {
      if x.userId == u {
        RebuildIsFresh(setup, a.disk, u, x.wallpaperType);
        assert x == Slot(u, x.wallpaperType);
        assert f.At(u, x.wallpaperType) == Current(setup, a, u, x.wallpaperType);
      } else {
        assert SameEntry(a, f, x);
      }
    }
  }

  lemma FillTwice(setup: Setup, a: State, u: int, t: WallpaperType)
    ensures FillBoth(setup, Fill(setup, a, u, t), u) == FillBoth(setup, a, u)
  {
    hide Rebuild;
    var f, g := FillBoth(setup, Fill(setup, a, u, t), u), FillBoth(setup, a, u);
    assert f.entries == g.entries;
  }

  lemma FillBothIs(setup: Setup, s: State, u: int)
    ensures FillBoth(setup, s, u) == Fill(setup, Fill(setup, s, u, System), u, Lockscreen)
  {
  }
}
