/** Which bytes a screen is shown after pictures were set. */
module Serving {
  import opened Paths
  import opened FileDeal
  import opened StateFile
  import opened ServiceState
  import opened ServiceRuns
  import opened FiniteSets
  import IndexRuns
  import opened PictureParcel

  /** A well-formed entry names a file for every fold state, whatever the rotate state, and for nothing else. */
  lemma LookupIsTotal(d: WallpaperData, x: Slot, foldState: int, rotateState: int)
    requires EntryOk(d, x)
    ensures GetWallpaperPath(foldState, rotateState, d.pictures) != Empty <==> 0 <= foldState <= 2
  {
  }

  /** In every state of every run, whatever failed, each entry names some file for every screen. */
  lemma RunServesEveryScreen(setup: Setup, start: State, events: seq<Event>, x: Slot, foldState: int, rotateState: int)
    requires WellFormed(start) && Run(setup, start, events) && x in Final(start, events).entries && 0 <= foldState <= 2
    ensures GetWallpaperPath(foldState, rotateState, Final(start, events).entries[x].pictures) != Empty
  {
    hide Run, EntryOk, GetWallpaperPath;
    RunKeepsWellFormed(setup, start, events);
    LookupIsTotal(Final(start, events).entries[x], x, foldState, rotateState);
  }

  /** In every state of every run whose requests ran to their end or were refused, a still-picture entry serves,
      on every screen, a built-in picture or a file that is there. */
  lemma GoodRunServesFiles(setup: Setup, start: State, events: seq<Event>, x: Slot, foldState: int, rotateState: int)
    requires IndexRuns.Agrees(setup, start) && IndexRuns.GoodRun(setup, start, events) && 0 <= foldState <= 2
    requires var s := Final(start, events); x in s.entries && IndexRuns.IsStill(s.entries[x])
    ensures var s := Final(start, events);
            var p := GetWallpaperPath(foldState, rotateState, s.entries[x].pictures);
            p != Empty && (p.Outside? || Exists(s.disk, p))
  {
    hide IndexRuns.GoodRun;
    var s := Final(start, events);
    IndexRuns.RunKeepsIndex(setup, start, events);
    assert IndexRuns.SlotAgrees(setup, s, x);
    ServedIsThere(setup, s.disk, x, foldState, rotateState);
  }

  lemma ServedIsThere(setup: Setup, d: Disk, x: Slot, foldState: int, rotateState: int)
    requires 0 <= foldState <= 2
    ensures var p := GetWallpaperPath(foldState, rotateState, PicturesFor(setup, d, x.userId, x.wallpaperType));
            p != Empty && (p.Outside? || Exists(d, p))
  {
    DefaultPictures(setup, x.wallpaperType);
    hide GetWallpaperDefaultPath;
    var ps := PicturesFor(setup, d, x.userId, x.wallpaperType);
    assert forall f, r :: ps.At(f, r) == Empty || ps.At(f, r).Outside? || Exists(d, ps.At(f, r));
    assert ps.wallpaperFile == ps.At(Normal, Port) != Empty;
    var f := if foldState == 0 then Normal else if foldState == 1 then Unfold1 else Unfold2;
    assert GetWallpaperPath(foldState, rotateState, ps) in [ps.At(f, Land), ps.At(f, Port), ps.At(Normal, Port)];
  }

  /** The listed screen whose picture stands in: the screen itself, else the same fold state in
      portrait, else the normal portrait. */
  function Stand(items: seq<Item>, f: FoldState, r: RotateState): (FoldState, RotateState) {
    if Listed(items, f, r) then (f, r) else if Listed(items, f, Port) then (f, Port) else (Normal, Port)
  }

  function RotateOf(rotateState: int): RotateState {
    if rotateState == 1 then Land else Port
  }

  lemma LookupFindsStand(portrait: Path, ps: Pictures, u: int, t: WallpaperType, items: seq<Item>, f: FoldState,
                         rotateState: int)
    requires PicturesSet(Only(portrait), ps, u, t, items) && Listed(items, Normal, Port)
    ensures var (sf, sr) := Stand(items, f, RotateOf(rotateState));
            GetWallpaperPath(FoldCode(f), rotateState, ps) == PicturePath(u, t, sf, sr) && Listed(items, sf, sr)
  {
    hide Listed;
    var r := RotateOf(rotateState);
    assert ps.At(f, r) == if Listed(items, f, r) then PicturePath(u, t, f, r) else Only(portrait).At(f, r);
    assert ps.At(f, Port) == if Listed(items, f, Port) then PicturePath(u, t, f, Port) else Only(portrait).At(f, Port);
    assert ps.At(Normal, Port) == PicturePath(u, t, Normal, Port);
  }

  /** The bytes of the stand-in picture are what the screen is shown. */
  ghost predicate ServesList(b: State, u: int, t: WallpaperType, items: seq<Item>) {
    b.Has(u, t) &&
    forall f: FoldState, rotateState: int, i :: 0 <= i < |items| ==>
      (var (sf, sr) := Stand(items, f, RotateOf(rotateState));
       IsFor(items[i], sf, sr) ==>
         Holds(b.disk, GetWallpaperPath(FoldCode(f), rotateState, b.At(u, t).pictures), items[i]))
  }

  predicate Holds(d: Disk, p: Path, i: Item) {
    p in d.files && d.files[p] == i.Buffer()
  }

  /** No temporary file of the list was longer than the picture written over it. */
  predicate NoLongTemps(d: Disk, items: seq<Item>) {
    forall i :: 0 <= i < |items| ==> |Content(d, items[i].TempFile())| <= |items[i].Buffer()|
  }

  lemma InstalledBytes(setup: Setup, a: State, b: State, u: int, t: WallpaperType, items: seq<Item>, i: int)
    requires SetAllDone(setup, a, b, u, t, items) && 0 <= i < |items|
    ensures Holds(b.disk, items[i].Target(u, t), items[i]) <==>
            |Content(a.disk, items[i].TempFile())| <= |items[i].Buffer()|
  {
    OverwriteExact(Content(a.disk, items[i].TempFile()), items[i].Buffer());
  }

  /** After a successful SetAllWallpapers that lists the normal portrait, every screen is shown exactly
      the bytes set for its stand-in, if and only if no longer temporary file was left over before. */
  lemma ServedIsWhatWasSet(setup: Setup, a: State, b: State, u: int, t: WallpaperType, items: seq<Item>)
    requires SetAllDone(setup, a, b, u, t, items) && Listed(items, Normal, Port)
    ensures ServesList(b, u, t, items) <==> NoLongTemps(a.disk, items)
  {
    hide SetAllDone, Content, Buffered, GetWallpaperPath;
    var ps, portrait := EntryPictures(setup, a, b, u, t, items);
    if NoLongTemps(a.disk, items) {
      forall f: FoldState, rotateState: int, i | 0 <= i < |items| &&
        (var (sf, sr) := Stand(items, f, RotateOf(rotateState)); IsFor(items[i], sf, sr))
        ensures Holds(b.disk, GetWallpaperPath(FoldCode(f), rotateState, ps), items[i])
      {
        LookupFindsStand(portrait, ps, u, t, items, f, rotateState);
        InstalledBytes(setup, a, b, u, t, items, i);
      }
    }
    if ServesList(b, u, t, items) {
      forall i | 0 <= i < |items| ensures |Content(a.disk, items[i].TempFile())| <= |items[i].Buffer()| {
        var f, r := items[i].foldState, items[i].rotateState;
        var rotateState := if r.Land? then 1 else 0;
        assert IsFor(items[i], f, r) && RotateOf(rotateState) == r && Listed(items, f, r);
        assert Stand(items, f, RotateOf(rotateState)) == (f, r);
        LookupFindsStand(portrait, ps, u, t, items, f, rotateState);
        InstalledBytes(setup, a, b, u, t, items, i);
      }
    }
  }

  lemma EntryPictures(setup: Setup, a: State, b: State, u: int, t: WallpaperType, items: seq<Item>)
    returns (ps: Pictures, portrait: Path)
    requires SetAllDone(setup, a, b, u, t, items)
    ensures b.Has(u, t) && ps == b.At(u, t).pictures && PicturesSet(Only(portrait), ps, u, t, items)
    ensures a.Has(u, t) ==> portrait == a.At(u, t).pictures.wallpaperFile
  {
    ps := b.At(u, t).pictures;
    var p :| IsPortrait(p, Slot(u, t)) && (a.Has(u, t) ==> p == a.At(u, t).pictures.wallpaperFile) &&
             PicturesSet(Only(p), b.At(u, t).pictures, u, t, items);
    portrait := p;
  }

  /** After one picture was set every screen is shown it, and its bytes are the ones set if and only if no
      longer temporary file was left over. */
  lemma OnePictureServesAll(setup: Setup, a: State, b: State, u: int, t: WallpaperType, bytes: Bytes, f: FoldState,
                            rotateState: int)
    requires SetDone(setup, a, b, u, t, RES_PICTURE, Overwrite(Content(a.disk, TMP), bytes))
    ensures var p := GetWallpaperPath(FoldCode(f), rotateState, b.At(u, t).pictures);
            p == PicturePath(u, t, Normal, Port) && p in b.disk.files &&
            (b.disk.files[p] == bytes <==> |Content(a.disk, TMP)| <= |bytes|)
  {
    hide Rebuild, Below, SameAt, StateText;
    OverwriteExact(Content(a.disk, TMP), bytes);
  }

  // ----- how long a list can be -----

  function Screens(items: seq<Item>): set<Path> {
    set i | 0 <= i < |items| :: items[i].TempFile()
  }

  lemma {:induction false} DistinctCount(items: seq<Item>)
    requires DistinctScreens(items)
    ensures |Screens(items)| == |items|
  {
    if items != [] {
      var last := items[|items| - 1];
      var rest := items[..|items| - 1];
      DistinctCount(rest);
      assert Screens(items) == Screens(rest) + {last.TempFile()} by {
        forall p ensures p in Screens(items) <==> p in Screens(rest) || p == last.TempFile() {
          if p in Screens(rest) {
            var i :| 0 <= i < |rest| && rest[i].TempFile() == p;
            assert items[i].TempFile() == p;
          }
          if p in Screens(items) {
            var i :| 0 <= i < |items| && items[i].TempFile() == p;
            assert i < |rest| ==> rest[i].TempFile() == p;
          }
        }
      }
      assert last.TempFile() !in Screens(rest);
    }
  }

  /** A list that sets wallpapers successfully names every screen at most once, so it is never longer
      than the parcel that carries it allows. */
  lemma AtMostSixPictures(setup: Setup, a: State, b: State, u: int, t: WallpaperType, items: seq<Item>)
    requires SetAllDone(setup, a, b, u, t, items)
    ensures forall i, j :: 0 <= i < j < |items| ==>
              !(items[i].foldState == items[j].foldState && items[i].rotateState == items[j].rotateState)
    ensures |items| <= 6 == VECTOR_MAX_SIZE
  {
    ListedOnce(setup, a, b, u, t, items);
    hide SetAllDone, DistinctScreens;
    DistinctCount(items);
    SixTemps();
    hide AllTemps, Screens;
    TempsOnly(items);
    SubsetSize(Screens(items), AllTemps());
  }

  function AllTemps(): set<Path> {
    {TempPath(Normal, Port), TempPath(Normal, Land), TempPath(Unfold1, Port), TempPath(Unfold1, Land),
     TempPath(Unfold2, Port), TempPath(Unfold2, Land)}
  }

  lemma SixTemps()
    ensures |AllTemps()| <= 6
  {
    hide TempPath;
  }

  lemma TempsOnly(items: seq<Item>)
    ensures Screens(items) <= AllTemps()
  {
    forall p | p in Screens(items) ensures p in AllTemps() {
      var i :| 0 <= i < |items| && items[i].TempFile() == p;
      TempIsListed(items[i].foldState, items[i].rotateState);
    }
  }

  lemma TempIsListed(f: FoldState, r: RotateState)
    ensures TempPath(f, r) in AllTemps()
  {
    hide TempPath;
  }

  lemma ListedOnce(setup: Setup, a: State, b: State, u: int, t: WallpaperType, items: seq<Item>)
    requires SetAllDone(setup, a, b, u, t, items)
    ensures DistinctScreens(items)
    ensures forall i, j :: 0 <= i < j < |items| ==>
              !(items[i].foldState == items[j].foldState && items[i].rotateState == items[j].rotateState)
  {
    forall i, j | 0 <= i < j < |items|
      ensures !(items[i].foldState == items[j].foldState && items[i].rotateState == items[j].rotateState)
    {
      assert items[i].TempFile() != items[j].TempFile();
    }
  }
}
