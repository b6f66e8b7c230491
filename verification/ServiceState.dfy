/** The state of the wallpaper service, and what each request may do to it.

    The `...Done` predicates fix the state after a request that reports success; `Refused` and
    `Spoiled` bound what a failed one may leave behind. The methods of WallpaperService establish
    them, and ServiceRuns derives from them what holds over whole runs. */
module ServiceState {
  import opened Paths
  import opened FileDeal
  import opened StateFile

  datatype ErrorCode =
    | NO_ERROR
    | E_DEAL_FAILED
    | E_PARAMETERS_INVALID
    | E_PICTURE_OVERSIZED
    | E_NO_PERMISSION
    | E_NOT_SYSTEM_APP
    | E_USER_IDENTITY_ERROR
    | E_NO_MEMORY

  /** The six picture paths of an entry. */
  datatype Pictures = Pictures(
    wallpaperFile: Path,
    normalLandFile: Path,
    unfoldedOnePortFile: Path,
    unfoldedOneLandFile: Path,
    unfoldedTwoPortFile: Path,
    unfoldedTwoLandFile: Path)
  {
    function At(f: FoldState, r: RotateState): Path {
      match (f, r)
      case (Normal, Port) => wallpaperFile
      case (Normal, Land) => normalLandFile
      case (Unfold1, Port) => unfoldedOnePortFile
      case (Unfold1, Land) => unfoldedOneLandFile
      case (Unfold2, Port) => unfoldedTwoPortFile
      case (Unfold2, Land) => unfoldedTwoLandFile
    }

    function With(f: FoldState, r: RotateState, p: Path): Pictures {
      match (f, r)
      case (Normal, Port) => this.(wallpaperFile := p)
      case (Normal, Land) => this.(normalLandFile := p)
      case (Unfold1, Port) => this.(unfoldedOnePortFile := p)
      case (Unfold1, Land) => this.(unfoldedOneLandFile := p)
      case (Unfold2, Port) => this.(unfoldedTwoPortFile := p)
      case (Unfold2, Land) => this.(unfoldedTwoLandFile := p)
    }
  }

  /** ClearnWallpaperDataFile: every picture but the portrait of the normal fold state is dropped. */
  function Only(p: Path): Pictures {
    Pictures(p, Empty, Empty, Empty, Empty, Empty)
  }

  datatype WallpaperData = WallpaperData(
    userId: int,
    pictures: Pictures,
    liveWallpaperFile: Path,
    customPackageUri: Path,
    wallpaperId: int,
    allowBackup: bool,
    resourceType: ResourceType)

  /** What the read-only system image supplies: the pictures found through the theme manifests
      (`Empty` where there is none), and the fallback files /system/etc/wallpaperdefault.jpeg and
      /system/etc/wallpaperlockdefault.jpeg. */
  datatype Image = Image(home: Pictures, lock: Pictures, homeFallback: Path, lockFallback: Path, template: Template)

  ghost predicate IsImage(i: Image) {
    i.homeFallback.Outside? && i.lockFallback.Outside? && StateLength(i.template) <= READ_LIMIT &&
    forall f, r :: (i.home.At(f, r).Empty? || i.home.At(f, r).Outside?) &&
                   (i.lock.At(f, r).Empty? || i.lock.At(f, r).Outside?)
  }

  type Setup = i: Image | IsImage(i)
    ghost witness Image(Only(Empty), Only(Empty), Outside("/h"), Outside("/l"), Template("", "", ""))

  function GetWallpaperDefaultPath(setup: Setup, t: WallpaperType): Pictures {
    var found := if t.System? then setup.home else setup.lock;
    if found.wallpaperFile == Empty then
      found.(wallpaperFile := if t.System? then setup.homeFallback else setup.lockFallback)
    else
      found
  }

  lemma DefaultPictures(setup: Setup, t: WallpaperType)
    ensures forall f, r :: var p := GetWallpaperDefaultPath(setup, t).At(f, r); p.Empty? || p.Outside?
    ensures GetWallpaperDefaultPath(setup, t).wallpaperFile.Outside?
  {
    var d := GetWallpaperDefaultPath(setup, t);
    forall f, r ensures d.At(f, r).Empty? || d.At(f, r).Outside? {
      assert !setup.home.At(f, r).Child? && !setup.lock.At(f, r).Child?;
    }
    assert setup.home.wallpaperFile == setup.home.At(Normal, Port);
    assert setup.lock.wallpaperFile == setup.lock.At(Normal, Port);
  }

  // ----- the index a restart rebuilds -----

  function GetExistFilePath(d: Disk, p: Path): Path {
    if Exists(d, p) then p else Empty
  }

  function PicturesOnDisk(d: Disk, u: int, t: WallpaperType): Pictures {
    Pictures(
      GetExistFilePath(d, PicturePath(u, t, Normal, Port)),
      GetExistFilePath(d, PicturePath(u, t, Normal, Land)),
      GetExistFilePath(d, PicturePath(u, t, Unfold1, Port)),
      GetExistFilePath(d, PicturePath(u, t, Unfold1, Land)),
      GetExistFilePath(d, PicturePath(u, t, Unfold2, Port)),
      GetExistFilePath(d, PicturePath(u, t, Unfold2, Land)))
  }

  function PicturesFor(setup: Setup, d: Disk, u: int, t: WallpaperType): Pictures {
    if Exists(d, PicturePath(u, t, Normal, Port)) then PicturesOnDisk(d, u, t)
    else GetWallpaperDefaultPath(setup, t)
  }

  /** The entry UpdataWallpaperMap builds. */
  function Rebuild(setup: Setup, d: Disk, u: int, t: WallpaperType): WallpaperData {
    WallpaperData(u, PicturesFor(setup, d, u, t), LivePath(u, t), PackagePath(u, t), -1, true, RES_PICTURE)
  }

  // ----- ids -----

  const INT32_MAX := 0x7fff_ffff

  function NextId(id: int): int {
    (if id == INT32_MAX then -1 else id) + 1
  }

  /** The id in force after `n` ids have been issued since start-up. */
  function IdAfter(n: nat): int {
    if n == 0 then -1 else (n - 1) % 0x8000_0000
  }

  lemma NextIdCounts(n: nat)
    ensures NextId(IdAfter(n)) == IdAfter(n + 1)
    ensures -1 <= IdAfter(n) <= INT32_MAX
  {
    if n > 0 && (n - 1) % 0x8000_0000 == INT32_MAX {
      assert n % 0x8000_0000 == 0;
    }
  }

  // ----- the state file -----

  /** No longer text was ever in the state file of `u`. */
  predicate StateFileFits(setup: Setup, d: Disk, u: int) {
    |Content(d, StatePath(u))| <= StateLength(setup.template)
  }

  function FirstBytes(s: Bytes, n: nat): (r: Bytes)
    ensures r <= s && (|r| == n || r == s)
  {
    if |s| <= n then s else s[..n]
  }

  // ----- the state -----

  datatype Slot = Slot(userId: int, wallpaperType: WallpaperType)

  /** The two maps of the service as one, keyed by user and type. */
  ghost function Joined(home: map<int, WallpaperData>, lock: map<int, WallpaperData>): imap<Slot, WallpaperData> {
    imap s: Slot | s.userId in (if s.wallpaperType.System? then home else lock) ::
      (if s.wallpaperType.System? then home else lock)[s.userId]
  }

  lemma JoinedHome(home: map<int, WallpaperData>, lock: map<int, WallpaperData>, u: int, d: WallpaperData)
    ensures Joined(home[u := d], lock) == Joined(home, lock)[Slot(u, System) := d]
  {
  }

  lemma JoinedLock(home: map<int, WallpaperData>, lock: map<int, WallpaperData>, u: int, d: WallpaperData)
    ensures Joined(home, lock[u := d]) == Joined(home, lock)[Slot(u, Lockscreen) := d]
  {
    var x, y := Joined(home, lock[u := d]), Joined(home, lock)[Slot(u, Lockscreen) := d];
    assert forall s :: s in x <==> s in y;
    assert forall s :: s in x ==> x[s] == y[s];
  }

  lemma JoinedEraseHome(home: map<int, WallpaperData>, lock: map<int, WallpaperData>, u: int)
    ensures Joined(home - {u}, lock) == Joined(home, lock) - {Slot(u, System)}
  {
    var x, y := Joined(home - {u}, lock), Joined(home, lock) - {Slot(u, System)};
    assert forall s :: s in x <==> s in y;
    assert forall s :: s in x ==> x[s] == y[s];
  }

  lemma JoinedEraseLock(home: map<int, WallpaperData>, lock: map<int, WallpaperData>, u: int)
    ensures Joined(home, lock - {u}) == Joined(home, lock) - {Slot(u, Lockscreen)}
  {
    var x, y := Joined(home, lock - {u}), Joined(home, lock) - {Slot(u, Lockscreen)};
    assert forall s :: s in x <==> s in y;
    assert forall s :: s in x ==> x[s] == y[s];
  }

  lemma JoinedErase(home: map<int, WallpaperData>, lock: map<int, WallpaperData>, u: int)
    ensures Joined(home - {u}, lock) == Joined(home, lock) - {Slot(u, System)}
    ensures Joined(home, lock - {u}) == Joined(home, lock) - {Slot(u, Lockscreen)}
  {
    JoinedEraseHome(home, lock, u);
    JoinedEraseLock(home, lock, u);
    hide Joined;
  }

  lemma JoinedEmpty()
    ensures Joined(map[], map[]) == imap[]
  {
  }

  datatype State = State(
    disk: Disk,
    entries: imap<Slot, WallpaperData>,
    wallpaperId: int,
    issued: nat,
    currentUserId: int)
  {
    predicate Has(u: int, t: WallpaperType) {
      Slot(u, t) in entries
    }

    function At(u: int, t: WallpaperType): WallpaperData
      requires Has(u, t)
    {
      entries[Slot(u, t)]
    }

    function With(u: int, t: WallpaperType, d: WallpaperData): State {
      this.(entries := entries[Slot(u, t) := d])
    }

    function Without(u: int, t: WallpaperType): State {
      this.(entries := entries - {Slot(u, t)})
    }

    function Id(): State {
      this.(wallpaperId := NextId(wallpaperId), issued := issued + 1)
    }
  }

  /** The entry of a slot, or what GetWallpaperSafeLocked would put there. */
  function Current(setup: Setup, s: State, u: int, t: WallpaperType): WallpaperData {
    if s.Has(u, t) then s.At(u, t) else Rebuild(setup, s.disk, u, t)
  }

  function Fill(setup: Setup, s: State, u: int, t: WallpaperType): State {
    if s.Has(u, t) then s else s.With(u, t, Rebuild(setup, s.disk, u, t))
  }

  /** The same after the directory of the slot was emptied. */
  function FillEmptied(setup: Setup, s: State, u: int, t: WallpaperType): State {
    if s.Has(u, t) then s
    else s.With(u, t, WallpaperData(u, GetWallpaperDefaultPath(setup, t), LivePath(u, t), PackagePath(u, t), -1, true,
                                    RES_PICTURE))
  }

  function FillBoth(setup: Setup, s: State, u: int): State {
    Fill(setup, Fill(setup, s, u, System), u, Lockscreen)
  }

  /** The portrait picture of a slot is its own file or a built-in one; it is never empty. */
  predicate IsPortrait(p: Path, s: Slot) {
    p == PicturePath(s.userId, s.wallpaperType, Normal, Port) || p.Outside?
  }

  predicate EntryOk(d: WallpaperData, s: Slot) {
    d.userId == s.userId &&
    d.liveWallpaperFile == LivePath(s.userId, s.wallpaperType) &&
    d.customPackageUri == PackagePath(s.userId, s.wallpaperType) &&
    IsPortrait(d.pictures.wallpaperFile, s) && d.allowBackup && -1 <= d.wallpaperId <= INT32_MAX
  }

  ghost predicate WellFormed(s: State) {
    IsTree(s.disk) && s.wallpaperId == IdAfter(s.issued) &&
    forall x: Slot :: x in s.entries ==> EntryOk(s.entries[x], x)
  }

  /** An entry that some disk was rebuilt into. */
  predicate IsFresh(d: WallpaperData, s: Slot) {
    EntryOk(d, s) && d.wallpaperId == -1 && d.resourceType == RES_PICTURE
  }

  lemma TwoSlots(u: int)
    ensures forall x: Slot :: x.userId == u ==> x == Slot(u, System) || x == Slot(u, Lockscreen)
  {
    forall x: Slot | x.userId == u ensures x == Slot(u, System) || x == Slot(u, Lockscreen) {
      match x.wallpaperType
      case System => assert x == Slot(u, System);
      case Lockscreen => assert x == Slot(u, Lockscreen);
    }
  }

  predicate SameEntry(a: State, b: State, s: Slot) {
    (s in a.entries <==> s in b.entries) && (s in a.entries ==> a.entries[s] == b.entries[s])
  }

  ghost predicate OtherUsersKept(a: State, b: State, u: int) {
    forall s: Slot :: s.userId != u ==> SameEntry(a, b, s)
  }

  /** No entry was changed or lost; missing ones of `u` may have been filled in. */
  ghost predicate Grew(a: State, b: State, u: int) {
    (forall s: Slot :: s in a.entries ==> s in b.entries && b.entries[s] == a.entries[s]) &&
    (forall s: Slot :: s in b.entries && s !in a.entries ==> s.userId == u && IsFresh(b.entries[s], s))
  }

  predicate BothPresent(s: State, u: int) {
    s.Has(u, System) && s.Has(u, Lockscreen)
  }

  function OtherType(t: WallpaperType): WallpaperType {
    if t.System? then Lockscreen else System
  }

  lemma RebuildIsFresh(setup: Setup, d: Disk, u: int, t: WallpaperType)
    ensures IsFresh(Rebuild(setup, d, u, t), Slot(u, t))
  {
    DefaultPictures(setup, t);
  }

  // ----- requests that fail -----

  /** A state file that was there is as it was; one that was not is missing still, or empty. */
  ghost predicate StateKept(a: Disk, b: Disk, u: int) {
    var p := StatePath(u);
    (p in b.dirs <==> p in a.dirs) &&
    (p in a.files ==> p in b.files && b.files[p] == a.files[p]) &&
    (p !in a.files && p in b.files ==> b.files[p] == [])
  }

  lemma KeptStateFits(setup: Setup, a: Disk, b: Disk, u: int)
    requires StateKept(a, b, u)
    ensures StateFileFits(setup, a, u) ==> StateFileFits(setup, b, u)
  {
  }

  /** Only temporary files may differ, an empty state file may have appeared, and missing entries of `u`
      may have been rebuilt from the disk. */
  ghost predicate Refused(setup: Setup, a: State, b: State, u: int) {
    (forall p :: !IsTemp(p) && p != StatePath(u) ==> SameAt(a.disk, b.disk, p)) &&
    StateKept(a.disk, b.disk, u) && b.disk.dirs <= a.disk.dirs &&
    Grew(a, b, u) &&
    (forall k :: b.Has(u, k) && !a.Has(u, k) ==> b.At(u, k) == Rebuild(setup, b.disk, u, k)) &&
    b.wallpaperId == a.wallpaperId && b.issued == a.issued && b.currentUserId == a.currentUserId
  }

  /** A request for `(u, t)` that failed after it began to change the directory of that slot: the damage
      stays in that directory, and every entry survives. */
  ghost predicate Spoiled(setup: Setup, a: State, b: State, u: int, t: WallpaperType) {
    (forall p :: !Below(p, GetWallpaperDir(u, t)) && !IsTemp(p) && p != StatePath(u) ==> SameAt(a.disk, b.disk, p)) &&
    StateKept(a.disk, b.disk, u) && b.disk.dirs <= a.disk.dirs &&
    Grew(a, b, u) &&
    (forall k :: k != t && b.Has(u, k) && !a.Has(u, k) ==> b.At(u, k) == Rebuild(setup, b.disk, u, k)) &&
    ((b.issued == a.issued && b.wallpaperId == a.wallpaperId) ||
     (b.issued == a.issued + 1 && b.wallpaperId == NextId(a.wallpaperId))) &&
    b.currentUserId == a.currentUserId
  }

  /** The user was set up afresh, or the attempt failed on the way: nothing in the user's directory is safe. */
  ghost predicate Wiped(setup: Setup, a: State, b: State, u: int) {
    u >= 0 &&
    (forall p :: !Inside(p, UserDir(u)) && !IsTemp(p) ==> SameAt(a.disk, b.disk, p)) &&
    (StateFileFits(setup, a.disk, u) ==> StateFileFits(setup, b.disk, u)) && OnlyUserDirsAdded(a.disk, b.disk, u) &&
    OtherUsersKept(a, b, u) &&
    (InitDone(setup, b, u) || b.entries == a.entries) &&
    b.wallpaperId == a.wallpaperId && b.issued == a.issued && b.currentUserId == a.currentUserId
  }

  /** No directory came but the three of the user, and no file in their place. */
  predicate OnlyUserDirsAdded(a: Disk, b: Disk, u: int) {
    b.dirs <= a.dirs + UserDirs(u) && forall p :: p in UserDirs(u) && p in b.files ==> p in a.files
  }

  // ----- set one wallpaper -----

  function TypeOf(wallpaperType: int): WallpaperType {
    if wallpaperType == 0 then System else Lockscreen
  }

  predicate IsType(wallpaperType: int) {
    wallpaperType == 0 || wallpaperType == 1
  }

  const FOO_MAX_LEN := 52428800
  const MAX_VIDEO_SIZE := 104857600

  function CheckValid(wallpaperType: int, length: int, res: ResourceType): ErrorCode {
    if !IsType(wallpaperType) then E_PARAMETERS_INVALID
    else if length <= 0 then E_PARAMETERS_INVALID
    else if length > (if res.RES_VIDEO? then MAX_VIDEO_SIZE else FOO_MAX_LEN) then E_PICTURE_OVERSIZED
    else NO_ERROR
  }

  /** What a buffer of `length` zero bytes holds after read(2) from `content`. */
  function Buffered(content: Bytes, length: nat): Bytes {
    if length <= |content| then content[..length]
    else content + seq(length - |content|, _ => 0 as char)
  }

  /** Byte by byte: what could be read, then zeros. */
  lemma BufferedAt(content: Bytes, length: nat, i: nat)
    ensures |Buffered(content, length)| == length
    ensures i < length ==> Buffered(content, length)[i] == if i < |content| then content[i] else 0 as char
  {
  }

  /** GetWallpaperFile: where a wallpaper of the resource type is stored. */
  function TargetPath(u: int, t: WallpaperType, res: ResourceType): Path {
    match res
    case RES_VIDEO => LivePath(u, t)
    case RES_PACKAGE => PackagePath(u, t)
    case _ => PicturePath(u, t, Normal, Port)
  }

  /** The directory of `(u, t)` holds `target` alone; the rest of the disk is as before, apart from
      the consumed temporary file and the state file. */
  ghost predicate Installed(a: Disk, b: Disk, u: int, t: WallpaperType, target: Path, bytes: Bytes, text: Bytes) {
    target in b.files && b.files[target] == bytes &&
    !Exists(b, TMP) &&
    StatePath(u) in b.files && b.files[StatePath(u)] == Overwrite(Content(a, StatePath(u)), text) &&
    (forall p :: p != target && Below(p, GetWallpaperDir(u, t)) ==> !Exists(b, p)) &&
    (forall p :: p != TMP && p != StatePath(u) && !Below(p, GetWallpaperDir(u, t)) ==> SameAt(a, b, p))
  }

  /** The state text that announces `res` for `t` and leaves the other type's resource as it is. */
  function NewText(setup: Setup, s: State, u: int, t: WallpaperType, res: ResourceType): Bytes {
    if t.System? then StateText(setup.template, res, Current(setup, s, u, Lockscreen).resourceType)
    else StateText(setup.template, Current(setup, s, u, System).resourceType, res)
  }

  ghost predicate SetDone(setup: Setup, a: State, b: State, u: int, t: WallpaperType, res: ResourceType, bytes: Bytes) {
    Installed(a.disk, b.disk, u, t, TargetPath(u, t, res), bytes, NewText(setup, a, u, t, res)) &&
    OtherUsersKept(a, b, u) &&
    BothPresent(b, u) &&
    (var portrait := if res.RES_PICTURE? || res.RES_DEFAULT? then TargetPath(u, t, res)
                     else if a.Has(u, t) then a.At(u, t).pictures.wallpaperFile
                     else GetWallpaperDefaultPath(setup, t).wallpaperFile;
     b.At(u, t) == WallpaperData(u, Only(portrait), LivePath(u, t), PackagePath(u, t), b.wallpaperId, true, res)) &&
    b.At(u, OtherType(t)) ==
      (if a.Has(u, OtherType(t)) then a.At(u, OtherType(t)) else Rebuild(setup, b.disk, u, OtherType(t))) &&
    b.issued == a.issued + 1 && b.wallpaperId == NextId(a.wallpaperId) &&
    b.currentUserId == a.currentUserId
  }

  function SetPrecheck(allowed: bool, wallpaperType: int, length: int, res: ResourceType): ErrorCode {
    if !allowed then E_USER_IDENTITY_ERROR else CheckValid(wallpaperType, length, res)
  }

  ghost predicate SetOutcome(setup: Setup, a: State, b: State, u: int, allowed: bool, content: Bytes,
                             wallpaperType: int, length: int, res: ResourceType, code: ErrorCode) {
    var pre := SetPrecheck(allowed, wallpaperType, length, res);
    if pre != NO_ERROR then
      code == pre && b == a
    else if content == [] then
      (code == E_DEAL_FAILED || code == E_NO_MEMORY) && b == a
    else match code
      case NO_ERROR =>
        SetDone(setup, a, b, u, TypeOf(wallpaperType), res, Overwrite(Content(a.disk, TMP), Buffered(content, length)))
      case E_NO_MEMORY => b == a
      case E_DEAL_FAILED =>
        (Refused(setup, a, b, u) && b == a.(disk := b.disk)) || Spoiled(setup, a, b, u, TypeOf(wallpaperType)) ||
        (res.RES_PICTURE? && !a.Has(u, TypeOf(wallpaperType)) && Wiped(setup, a, b, u))
      case _ => false
  }

  // ----- users -----

  /** The user's directory holds nothing but the two empty type directories, and both entries say so. */
  ghost predicate InitDone(setup: Setup, b: State, u: int) {
    (forall p :: Inside(p, UserDir(u)) ==>
       p !in b.disk.files &&
       (p in b.disk.dirs <==>
          p == UserDir(u) || p == GetWallpaperDir(u, System) || p == GetWallpaperDir(u, Lockscreen))) &&
    (forall k :: b.Has(u, k) && b.At(u, k) == Rebuild(setup, b.disk, u, k))
  }

  ghost predicate InitOutcome(setup: Setup, a: State, b: State, u: int) {
    if u < 0 then b == a else
    (forall p :: !Inside(p, UserDir(u)) ==> SameAt(a.disk, b.disk, p)) &&
    (StateFileFits(setup, a.disk, u) ==> StateFileFits(setup, b.disk, u)) && OnlyUserDirsAdded(a.disk, b.disk, u) &&
    OtherUsersKept(a, b, u) &&
    (InitDone(setup, b, u) || b.entries == a.entries) &&
    b.wallpaperId == a.wallpaperId && b.issued == a.issued && b.currentUserId == a.currentUserId
  }

  /** Nothing that the disk shows keeps OnInitUser from its end. */
  predicate CanSetUp(d: Disk, u: int) {
    u >= 0 && Base in d.dirs && UserDir(u) !in d.files
  }

  /** What OnInitUser does on a reliable system. */
  ghost predicate SureSetUp(setup: Setup, a: State, b: State, u: int) {
    if CanSetUp(a.disk, u) then InitDone(setup, b, u) else b == a
  }

  /** What a read does on a reliable system: a missing entry sets the user up afresh. */
  ghost predicate SureRead(setup: Setup, a: State, b: State, u: int, t: WallpaperType) {
    if a.Has(u, t) then b == a else SureSetUp(setup, a, b, u)
  }

  // ----- when a request cannot fail -----

  /** The directory of the slot is there, and no directory is where the state file belongs. */
  predicate SlotReady(d: Disk, u: int, t: WallpaperType) {
    GetWallpaperDir(u, t) in d.dirs && StatePath(u) !in d.dirs
  }

  /** No directory is where a temporary file belongs. */
  ghost predicate TempsReady(d: Disk) {
    forall p :: IsTemp(p) ==> p !in d.dirs
  }

  /** The directory of the slot is missing, though the base directory is there. */
  ghost predicate SlotMissing(d: Disk, u: int, t: WallpaperType) {
    Base in d.dirs && GetWallpaperDir(u, t) !in d.dirs && TempsReady(d)
  }

  /** What a set request does on a reliable system when the directory of its slot is missing: the temporary
      file stays behind, and a picture for a slot without an entry sets the user up afresh. */
  ghost predicate MissingOutcome(setup: Setup, a: State, b: State, u: int, t: WallpaperType, res: ResourceType,
                                 bytes: Bytes, code: ErrorCode) {
    var left := Overwrite(Content(a.disk, TMP), bytes);
    code == E_DEAL_FAILED &&
    if res.RES_PICTURE? && !a.Has(u, t) && u >= 0 && UserDir(u) !in a.disk.files then
      Content(b.disk, TMP) == left && (forall p :: IsTemp(p) && p != TMP ==> SameAt(a.disk, b.disk, p)) &&
      Wiped(setup, a, b, u) && InitDone(setup, b, u)
    else
      b == a.(disk := a.disk.(files := a.disk.files[TMP := left]))
  }

  /** What a set request answers on a reliable system when its directories are there. */
  function SetAnswer(allowed: bool, content: Bytes, wallpaperType: int, length: int, res: ResourceType): ErrorCode {
    var pre := SetPrecheck(allowed, wallpaperType, length, res);
    if pre == NO_ERROR && content == [] then E_DEAL_FAILED else pre
  }

  /** The answer of a set request whose slot may have no directory. */
  function SetMissingAnswer(allowed: bool, content: Bytes, wallpaperType: int, length: int, res: ResourceType)
    : ErrorCode
  {
    var answer := SetAnswer(allowed, content, wallpaperType, length, res);
    if answer == NO_ERROR then E_DEAL_FAILED else answer
  }

  /** Installing the temporary file cannot fail. */
  predicate BackupSure(reliable: bool, d: Disk, u: int, t: WallpaperType) {
    reliable && TMP in d.files && SlotReady(d, u, t)
  }

  /** On a reliable system whose directories are there, a set or reset of the slot answers what its input says. */
  ghost predicate RequestSure(reliable: bool, d: Disk, u: int, t: WallpaperType) {
    reliable && SlotReady(d, u, t) && TempsReady(d)
  }

  // ----- what the calls of one request leave -----

  /** Nothing changed but the directory of `(u, t)`, temporary files and the user's state file. */
  ghost predicate Touched(a: Disk, b: Disk, u: int, t: WallpaperType) {
    forall p :: !Below(p, GetWallpaperDir(u, t)) && !IsTemp(p) && p != StatePath(u) ==> SameAt(a, b, p)
  }

  /** The temporary file `source` now lives at `target`, and only there. */
  ghost predicate Moved(a: Disk, b: Disk, source: Path, target: Path) {
    source in a.files && target in b.files && b.files[target] == a.files[source] && !Exists(b, source) &&
    forall p :: p != source && p != target ==> SameAt(a, b, p)
  }

  /** What a set publishes over the state `m` reached once its id is drawn. */
  function NewEntry(m: State, u: int, t: WallpaperType, res: ResourceType): WallpaperData
    requires m.Has(u, t)
  {
    var portrait := if res.RES_PICTURE? || res.RES_DEFAULT? then TargetPath(u, t, res)
                    else m.At(u, t).pictures.wallpaperFile;
    m.At(u, t).(pictures := Only(portrait), resourceType := res, wallpaperId := m.wallpaperId)
  }

  // ----- the directories of a user -----

  function UserDirs(u: int): set<Path> {
    {UserDir(u), GetWallpaperDir(u, System), GetWallpaperDir(u, Lockscreen)}
  }

  /** Mkdir calls for the three directories of a user, of which the later ones may not have run. */
  ghost predicate DirsMade(a: Disk, b: Disk, u: int, ok: bool) {
    b.files == a.files && a.dirs <= b.dirs <= a.dirs + UserDirs(u) && (ok ==> UserDirs(u) <= b.dirs)
  }

  /** Nothing is in the way of the directories of a user. */
  predicate PlaceFor(d: Disk, u: int) {
    Base in d.dirs && forall p :: p in UserDirs(u) ==> p !in d.files
  }

  predicate IsOriginal(p: Path) {
    p.Child? && p.name.Original?
  }

  /** Directories may have been made, and leftover originals removed. */
  ghost predicate Tidied(a: Disk, b: Disk) {
    (forall p :: p in b.files ==> p in a.files) &&
    (forall p :: p in a.dirs && !IsOriginal(p) ==> p in b.dirs) &&
    (forall p :: p in b.dirs && IsOriginal(p) ==> p in a.dirs)
  }

  /** The directories of the user are there and no leftover original is. */
  predicate Laid(d: Disk, u: int) {
    UserDirs(u) <= d.dirs && forall k: WallpaperType :: !Exists(d, OriginalPath(u, k))
  }

  /** The disk with the directories of the user made and the leftover originals removed. */
  function LaidOut(d: Disk, u: int): Disk {
    Disk(d.dirs + UserDirs(u), d.files - {OriginalPath(u, System), OriginalPath(u, Lockscreen)})
  }

  function AllLaidOut(d: Disk, users: seq<int>): Disk {
    if users == [] then d else LaidOut(AllLaidOut(d, users[..|users| - 1]), users[|users| - 1])
  }

  predicate CanBeLaid(d: Disk, u: int) {
    PlaceFor(d, u) && forall k: WallpaperType :: OriginalPath(u, k) !in d.dirs
  }

  // ----- reset -----

  /** Who asks, as the permission, account and scene-board queries report it. */
  datatype Caller = Caller(systemApp: bool, nativeSa: bool, canSet: bool, userAllowed: bool, sceneBoard: bool)

  function ResetPrecheck(caller: Caller, wallpaperType: int): ErrorCode {
    if !caller.canSet then E_NO_PERMISSION
    else if !IsType(wallpaperType) then E_PARAMETERS_INVALID
    else if !caller.userAllowed then E_USER_IDENTITY_ERROR
    else NO_ERROR
  }

  /** The directory of `(u, t)` is empty and the entry names the built-in pictures. */
  ghost predicate ResetDone(setup: Setup, a: State, b: State, u: int, t: WallpaperType) {
    (forall p :: Below(p, GetWallpaperDir(u, t)) ==> !Exists(b.disk, p)) &&
    (forall p :: !Below(p, GetWallpaperDir(u, t)) && p != StatePath(u) ==> SameAt(a.disk, b.disk, p)) &&
    StatePath(u) in b.disk.files &&
    b.disk.files[StatePath(u)] == Overwrite(Content(a.disk, StatePath(u)), NewText(setup, a, u, t, RES_DEFAULT)) &&
    OtherUsersKept(a, b, u) &&
    BothPresent(b, u) &&
    b.At(u, t) == WallpaperData(u, GetWallpaperDefaultPath(setup, t), LivePath(u, t), PackagePath(u, t), -1, true,
                                RES_DEFAULT) &&
    b.At(u, OtherType(t)) ==
      (if a.Has(u, OtherType(t)) then a.At(u, OtherType(t)) else Rebuild(setup, b.disk, u, OtherType(t))) &&
    b.wallpaperId == a.wallpaperId && b.issued == a.issued && b.currentUserId == a.currentUserId
  }

  ghost predicate ResetOutcome(setup: Setup, a: State, b: State, u: int, caller: Caller, wallpaperType: int,
                               code: ErrorCode) {
    var pre := ResetPrecheck(caller, wallpaperType);
    if pre != NO_ERROR then
      code == pre && b == a
    else match code
      case NO_ERROR => ResetDone(setup, a, b, u, TypeOf(wallpaperType))
      case E_DEAL_FAILED => Spoiled(setup, a, b, u, TypeOf(wallpaperType))
      case _ => false
  }

  // ----- a custom package -----

  function CustomPrecheck(caller: Caller, wallpaperType: int): ErrorCode {
    if !caller.systemApp then E_NOT_SYSTEM_APP
    else if !caller.canSet then E_NO_PERMISSION
    else if !IsType(wallpaperType) then E_PARAMETERS_INVALID
    else NO_ERROR
  }

  /** What a package request answers on a reliable system when its directories are there. */
  function CustomAnswer(caller: Caller, content: Bytes, wallpaperType: int, length: int): ErrorCode {
    var pre := CustomPrecheck(caller, wallpaperType);
    if pre != NO_ERROR then pre
    else if !caller.sceneBoard then E_NO_PERMISSION
    else SetAnswer(caller.userAllowed, content, wallpaperType, length, RES_PACKAGE)
  }

  ghost predicate StateSaved(setup: Setup, a: State, m: State, u: int, t: WallpaperType, res: ResourceType) {
    m == FillBoth(setup, a, u).(disk := m.disk) &&
    Written(a.disk, m.disk, StatePath(u), NewText(setup, a, u, t, res), true)
  }

  /** `s` after a package entry that keeps only the portrait picture known at `a` was published. */
  function WithPackage(setup: Setup, a: State, s: State, u: int, t: WallpaperType): State {
    var data := Current(setup, a, u, t);
    s.Id().With(u, t, data.(pictures := Only(data.pictures.wallpaperFile), resourceType := RES_PACKAGE,
                            wallpaperId := s.Id().wallpaperId))
  }

  /** The package entry is published whatever the inner set request answers. */
  ghost predicate CustomOutcome(setup: Setup, a: State, b: State, u: int, caller: Caller, content: Bytes,
                                wallpaperType: int, length: int, code: ErrorCode) {
    var pre := CustomPrecheck(caller, wallpaperType);
    var t := TypeOf(wallpaperType);
    if pre != NO_ERROR then
      code == pre && b == a
    else if !caller.sceneBoard then
      code == E_NO_PERMISSION && b == Fill(setup, a, u, t)
    else
      (code == E_DEAL_FAILED && Refused(setup, a, b, u) && b == FillBoth(setup, a, u).(disk := b.disk)) ||
      exists m, n ::
        StateSaved(setup, a, m, u, t, RES_PACKAGE) && IsTree(m.disk) &&
        SetOutcome(setup, m, n, u, caller.userAllowed, content, wallpaperType, length, RES_PACKAGE, code) &&
        b == WithPackage(setup, a, n, u, t)
  }

  /** The state file announces a package and both entries are there. */
  function Announced(setup: Setup, a: State, u: int, t: WallpaperType): State {
    var text := Overwrite(Content(a.disk, StatePath(u)), NewText(setup, a, u, t, RES_PACKAGE));
    FillBoth(setup, a, u).(disk := a.disk.(files := a.disk.files[StatePath(u) := text]))
  }

  /** `s` with a buffer left behind in the temporary file. */
  function LeftInTemp(s: State, bytes: Bytes): State {
    s.(disk := s.disk.(files := s.disk.files[TMP := Overwrite(Content(s.disk, TMP), bytes)]))
  }

  /** What a package request does on a reliable system when the directory of its slot is missing: the state
      file cannot be written where the user has no directory, and otherwise the entry is published although
      the package cannot be stored. */
  predicate CustomMissing(setup: Setup, a: State, b: State, u: int, caller: Caller, content: Bytes,
                          wallpaperType: int, length: int, code: ErrorCode) {
    var t := TypeOf(wallpaperType);
    if CustomPrecheck(caller, wallpaperType) != NO_ERROR then
      code == CustomPrecheck(caller, wallpaperType) && b == a
    else if !caller.sceneBoard then
      code == E_NO_PERMISSION && b == Fill(setup, a, u, t)
    else if !Writable(a.disk, StatePath(u)) then
      code == E_DEAL_FAILED && b == FillBoth(setup, a, u)
    else
      var m := Announced(setup, a, u, t);
      var answer := SetAnswer(caller.userAllowed, content, wallpaperType, length, RES_PACKAGE);
      var n := if answer == NO_ERROR && length >= 0 then LeftInTemp(m, Buffered(content, length)) else m;
      code == SetMissingAnswer(caller.userAllowed, content, wallpaperType, length, RES_PACKAGE) &&
      b == WithPackage(setup, a, n, u, t)
  }

  // ----- set all wallpapers -----

  /** One picture of a SetAllWallpapers list and the bytes its descriptor yields. */
  datatype Item = Item(foldState: FoldState, rotateState: RotateState, content: Bytes, length: int)
  {
    function TempFile(): Path {
      TempPath(foldState, rotateState)
    }

    function Target(u: int, t: WallpaperType): Path {
      PicturePath(u, t, foldState, rotateState)
    }

    function Buffer(): Bytes {
      if length < 0 then [] else Buffered(content, length)
    }
  }

  predicate IsFor(i: Item, f: FoldState, r: RotateState) {
    i.foldState == f && i.rotateState == r
  }

  predicate Listed(items: seq<Item>, f: FoldState, r: RotateState) {
    exists i :: 0 <= i < |items| && IsFor(items[i], f, r)
  }

  predicate IsTempOf(items: seq<Item>, p: Path) {
    exists i :: 0 <= i < |items| && items[i].TempFile() == p
  }

  predicate IsTargetOf(items: seq<Item>, u: int, t: WallpaperType, p: Path) {
    exists i :: 0 <= i < |items| && items[i].Target(u, t) == p
  }

  predicate DistinctScreens(items: seq<Item>) {
    forall i, j :: 0 <= i < j < |items| ==> items[i].TempFile() != items[j].TempFile()
  }

  function SetAllPrecheck(caller: Caller, items: seq<Item>, fdCount: nat): ErrorCode {
    if |items| != fdCount || fdCount == 0 then E_DEAL_FAILED
    else if !caller.systemApp && !caller.nativeSa then E_NOT_SYSTEM_APP
    else if !caller.canSet then E_NO_PERMISSION
    else if !caller.userAllowed then E_USER_IDENTITY_ERROR
    else NO_ERROR
  }

  /** Every temporary file has been moved to its place below the directory of `(u, t)`. */
  ghost predicate AllMoved(a: Disk, b: Disk, u: int, t: WallpaperType, items: seq<Item>) {
    DistinctScreens(items) &&
    (forall i :: 0 <= i < |items| ==>
       items[i].TempFile() in a.files && !Exists(b, items[i].TempFile()) &&
       items[i].Target(u, t) in b.files && b.files[items[i].Target(u, t)] == a.files[items[i].TempFile()]) &&
    (forall p :: !IsTempOf(items, p) && !IsTargetOf(items, u, t, p) ==> SameAt(a, b, p))
  }

  /** The pictures of an entry after the listed ones were pointed to their new files. */
  ghost predicate PicturesSet(before: Pictures, after: Pictures, u: int, t: WallpaperType, items: seq<Item>) {
    forall f, r :: after.At(f, r) == if Listed(items, f, r) then PicturePath(u, t, f, r) else before.At(f, r)
  }

  ghost predicate SetAllDone(setup: Setup, a: State, b: State, u: int, t: WallpaperType, items: seq<Item>) {
    DistinctScreens(items) &&
    (forall i :: 0 <= i < |items| ==>
       items[i].length > 0 &&
       !Exists(b.disk, items[i].TempFile()) &&
       items[i].Target(u, t) in b.disk.files &&
       b.disk.files[items[i].Target(u, t)] == Overwrite(Content(a.disk, items[i].TempFile()), items[i].Buffer())) &&
    (forall p :: !Below(p, GetWallpaperDir(u, t)) && !IsTempOf(items, p) ==> SameAt(a.disk, b.disk, p)) &&
    (forall p :: Below(p, GetWallpaperDir(u, t)) && !IsTargetOf(items, u, t, p) ==>
       !Exists(b.disk, p) || SameAt(a.disk, b.disk, p)) &&
    b.Has(u, t) &&
    (forall x: Slot :: x != Slot(u, t) ==> SameEntry(a, b, x)) &&
    (exists portrait ::
       IsPortrait(portrait, Slot(u, t)) &&
       (a.Has(u, t) ==> portrait == a.At(u, t).pictures.wallpaperFile) &&
       PicturesSet(Only(portrait), b.At(u, t).pictures, u, t, items)) &&
    b.At(u, t) == WallpaperData(u, b.At(u, t).pictures, LivePath(u, t), PackagePath(u, t), b.wallpaperId, true,
                                RES_PICTURE) &&
    b.issued == a.issued + 1 && b.wallpaperId == NextId(a.wallpaperId) &&
    b.currentUserId == a.currentUserId
  }

  ghost predicate SetAllOutcome(setup: Setup, a: State, b: State, u: int, caller: Caller, items: seq<Item>,
                                fdCount: nat, wallpaperType: int, code: ErrorCode) {
    var pre := SetAllPrecheck(caller, items, fdCount);
    if pre != NO_ERROR then
      code == pre && b == a
    else match code
      case NO_ERROR => IsType(wallpaperType) && SetAllDone(setup, a, b, u, TypeOf(wallpaperType), items)
      case E_DEAL_FAILED =>
        (Refused(setup, a, b, u) && b == a.(disk := b.disk)) || Spoiled(setup, a, b, u, TypeOf(wallpaperType))
      case E_NO_MEMORY => Refused(setup, a, b, u) && b == a.(disk := b.disk)
      case _ =>
        Refused(setup, a, b, u) && b == a.(disk := b.disk) &&
        exists i :: 0 <= i < |items| && CheckValid(wallpaperType, items[i].length, RES_PICTURE) == code
  }

  /** What SetAllWallpapers does on a reliable system when its directories are there: the first bad item of
      the list decides, leaving the temporary files of the items before it if it is invalid and none if it
      is empty; a repeated screen leaves the pictures before the first repeat. */
  ghost predicate SetAllSure(setup: Setup, a: State, b: State, u: int, t: WallpaperType, items: seq<Item>,
                             wallpaperType: int, code: ErrorCode) {
    if code == NO_ERROR then
      HoldsOnly(b.disk, u, t, items) && b.Has(u, t) &&
      (!a.Has(u, t) && !Listed(items, Normal, Port) ==>
         b.At(u, t).pictures.wallpaperFile == GetWallpaperDefaultPath(setup, t).wallpaperFile)
    else if ListAnswer(items, wallpaperType) != NO_ERROR then
      ListRefused(setup, a, b, u, items, wallpaperType, code)
    else
      Spoiled(setup, a, b, u, t) && NoTempLeft(b.disk, items) &&
      b == FillEmptied(setup, a, u, t).(disk := b.disk) && SameAt(a.disk, b.disk, StatePath(u)) &&
      (forall p :: IsTemp(p) && !IsTempOf(items, p) ==> SameAt(a.disk, b.disk, p)) &&
      exists i: nat :: RepeatsAt(items, i) && PicturesLeft(b.disk, u, t, items[..i]) &&
                       PicturesHold(a.disk, b.disk, u, t, items, i)
  }

  /** What a list with a bad item leaves: nothing of it where the first bad item is empty, the temporary
      files of the items before it where it is invalid. */
  ghost predicate ListRefused(setup: Setup, a: State, b: State, u: int, items: seq<Item>, wallpaperType: int,
                              code: ErrorCode) {
    Refused(setup, a, b, u) && b == a.(disk := b.disk) &&
    if ListAnswer(items, wallpaperType) == E_DEAL_FAILED then
      exists i: nat :: EmptyAt(items, wallpaperType, i) && NoTempLeft(b.disk, items[..i + 1]) &&
                       OnlyTemps(a.disk, b.disk, items[..i + 1])
    else
      exists i :: 0 <= i < |items| && CheckValid(wallpaperType, items[i].length, RES_PICTURE) == code &&
                  ListAnswer(items[..i], wallpaperType) == NO_ERROR &&
                  TempsWritten(a.disk, b.disk, wallpaperType, items[..i])
  }

  /** The first bad item is valid but cannot be read. */
  predicate EmptyAt(items: seq<Item>, wallpaperType: int, i: nat) {
    i < |items| && ListAnswer(items[..i], wallpaperType) == NO_ERROR &&
    CheckValid(wallpaperType, items[i].length, RES_PICTURE) == NO_ERROR && items[i].content == []
  }

  /** What SetAllWallpapers does on a reliable system when the directory of its slot is missing: no picture can
      be moved, and no temporary file stays. */
  ghost predicate SetAllMissing(setup: Setup, a: State, b: State, u: int, t: WallpaperType, items: seq<Item>,
                                wallpaperType: int, code: ErrorCode) {
    if ListAnswer(items, wallpaperType) != NO_ERROR then
      code == ListAnswer(items, wallpaperType) && ListRefused(setup, a, b, u, items, wallpaperType, code)
    else
      code == E_DEAL_FAILED && NoTempLeft(b.disk, items) && OnlyTemps(a.disk, b.disk, items) &&
      b == Fill(setup, a, u, t).(disk := b.disk)
  }

  /** The directory of the slot is there: all that a list needs of it. */
  ghost predicate ListSure(reliable: bool, d: Disk, u: int, t: WallpaperType) {
    reliable && GetWallpaperDir(u, t) in d.dirs && TempsReady(d)
  }

  /** The directory of the slot holds listed pictures only. */
  ghost predicate HoldsOnly(d: Disk, u: int, t: WallpaperType, items: seq<Item>) {
    forall p :: Below(p, GetWallpaperDir(u, t)) && !IsTargetOf(items, u, t, p) ==> !Exists(d, p)
  }

  /** What writing the temporary files answers on a reliable system: that of the first bad item. */
  function ListAnswer(items: seq<Item>, wallpaperType: int): ErrorCode {
    if items == [] then NO_ERROR
    else
      var n := |items| - 1;
      var before := ListAnswer(items[..n], wallpaperType);
      var valid := CheckValid(wallpaperType, items[n].length, RES_PICTURE);
      if before != NO_ERROR then before
      else if valid != NO_ERROR then valid
      else if items[n].content == [] then E_DEAL_FAILED
      else NO_ERROR
  }

  /** What SetAllWallpapers answers on a reliable system when its directories are there. */
  function SetAllAnswer(caller: Caller, items: seq<Item>, fdCount: nat, wallpaperType: int): ErrorCode {
    var pre := SetAllPrecheck(caller, items, fdCount);
    if pre != NO_ERROR then pre
    else if ListAnswer(items, wallpaperType) != NO_ERROR then ListAnswer(items, wallpaperType)
    else if DistinctScreens(items) then NO_ERROR
    else E_DEAL_FAILED
  }

  ghost predicate TempsWritable(d: Disk) {
    forall p :: IsTemp(p) ==> Writable(d, p)
  }

  /** The first item whose screen was listed before. */
  predicate RepeatsAt(items: seq<Item>, i: nat) {
    i < |items| && DistinctScreens(items[..i]) && IsTempOf(items[..i], items[i].TempFile())
  }

  /** The items before the first repeated screen. */
  function BeforeRepeat(items: seq<Item>): seq<Item> {
    if DistinctScreens(items) then items else BeforeRepeat(items[..|items| - 1])
  }

  /** The directory of the slot holds exactly the pictures of the list. */
  ghost predicate PicturesLeft(d: Disk, u: int, t: WallpaperType, items: seq<Item>) {
    forall p :: Below(p, GetWallpaperDir(u, t)) ==> (Exists(d, p) <==> IsTargetOf(items, u, t, p))
  }

  /** The pictures of the first `i` items hold what the whole list left in their temporary files. */
  ghost predicate PicturesHold(a: Disk, b: Disk, u: int, t: WallpaperType, items: seq<Item>, i: nat) {
    i <= |items| &&
    forall j :: 0 <= j < i ==>
      var p := items[j].TempFile();
      p in Writes(a.files, items) && items[j].Target(u, t) in b.files &&
      b.files[items[j].Target(u, t)] == Writes(a.files, items)[p]
  }

  /** Every move of the list from `i` on can be made, but for a screen that was listed before. */
  ghost predicate MovesReady(d: Disk, u: int, t: WallpaperType, items: seq<Item>, i: nat) {
    i <= |items| && GetWallpaperDir(u, t) in d.dirs &&
    forall j :: i <= j < |items| ==>
      items[j].Target(u, t) !in d.dirs && (IsTempOf(items[..i], items[j].TempFile()) || items[j].TempFile() in d.files)
  }

  /** Nothing has appeared. */
  ghost predicate Fewer(a: Disk, b: Disk) {
    forall p :: (p in b.dirs ==> p in a.dirs) && (p in b.files ==> p in a.files)
  }

  /** None of the temporary files of the list is there. */
  ghost predicate NoTempLeft(d: Disk, items: seq<Item>) {
    forall i :: 0 <= i < |items| ==> !Exists(d, items[i].TempFile())
  }

  ghost predicate TempsHold(a: Disk, b: Disk, items: seq<Item>) {
    forall i :: 0 <= i < |items| ==>
      items[i].TempFile() in b.files &&
      b.files[items[i].TempFile()] == Overwrite(Content(a, items[i].TempFile()), items[i].Buffer())
  }

  /** The files after the items were written to their temporary files one after another. */
  function Writes(files: map<Path, Bytes>, items: seq<Item>): map<Path, Bytes> {
    if items == [] then files
    else
      var n := |items| - 1;
      var before := Writes(files, items[..n]);
      var p := items[n].TempFile();
      before[p := Overwrite(if p in before then before[p] else [], items[n].Buffer())]
  }

  /** After the first loop: every list entry is valid and its temporary file there, and, if no screen state is
      listed twice, every temporary file holds its bytes. */
  ghost predicate TempsWritten(a: Disk, b: Disk, wallpaperType: int, items: seq<Item>) {
    (forall i :: 0 <= i < |items| ==> CheckValid(wallpaperType, items[i].length, RES_PICTURE) == NO_ERROR) &&
    (forall i :: 0 <= i < |items| ==> items[i].TempFile() in b.files) &&
    (DistinctScreens(items) ==> TempsHold(a, b, items)) &&
    (forall p :: !IsTempOf(items, p) ==> SameAt(a, b, p)) &&
    b.files == Writes(a.files, items)
  }

  ghost predicate OnlyTemps(a: Disk, b: Disk, items: seq<Item>) {
    forall p :: !IsTempOf(items, p) ==> SameAt(a, b, p)
  }

  /** The disk between a cleared directory and the moves into it. */
  ghost predicate MovesOnly(a: Disk, b: Disk, u: int, t: WallpaperType, items: seq<Item>) {
    forall p :: !IsTempOf(items, p) && !IsTargetOf(items, u, t, p) ==> SameAt(a, b, p)
  }

  // ----- users come and go -----

  ghost predicate RemoveOutcome(a: State, b: State, u: int) {
    if u < 0 then b == a else
    (forall p :: !Inside(p, UserDir(u)) ==> SameAt(a.disk, b.disk, p)) &&
    (forall p :: Inside(p, UserDir(u)) ==> !Exists(b.disk, p) || SameAt(a.disk, b.disk, p)) &&
    OtherUsersKept(a, b, u) &&
    (forall k :: !b.Has(u, k)) &&
    b.wallpaperId == a.wallpaperId && b.issued == a.issued && b.currentUserId == a.currentUserId
  }

  ghost predicate UserGone(d: Disk, u: int) {
    forall p :: Inside(p, UserDir(u)) ==> !Exists(d, p)
  }

  /** User and type directories, and the leftover originals that are removed at start-up. */
  predicate IsScaffold(p: Path) {
    p.Child? && (p.name.User? || p.name.Kind? || p.name.Original?)
  }

  /** User and type directories may have been made and leftover originals removed; nothing else changed. */
  ghost predicate ScaffoldOnly(a: Disk, b: Disk) {
    (forall p :: !IsScaffold(p) ==> SameAt(a, b, p)) &&
    (forall p :: if IsOriginal(p) then !Exists(b, p) || SameAt(a, b, p) else KeptAt(a, b, p))
  }

  /** A file stays as it was, no file comes, and a directory stays. */
  predicate KeptAt(a: Disk, b: Disk, p: Path) {
    (p in a.files <==> p in b.files) && (p in a.files ==> b.files[p] == a.files[p]) && (p in a.dirs ==> p in b.dirs)
  }

  ghost predicate IsRebuilt(setup: Setup, s: State, x: Slot) {
    x in s.entries && s.entries[x] == Rebuild(setup, s.disk, x.userId, x.wallpaperType)
  }

  /** Entries rebuilt from disk, for `u` when its directory was missing and wherever one was missing. */
  ghost predicate Switching(setup: Setup, a: State, b: State, u: int, active: int) {
    var anew := !Exists(a.disk, UserDir(u));
    (if anew then DirsMade(a.disk, b.disk, u, false) else b.disk == a.disk) &&
    (forall x: Slot :: x in a.entries && !(anew && x.userId == u) ==> SameEntry(a, b, x)) &&
    (forall x: Slot :: x in b.entries && (x !in a.entries || (anew && x.userId == u)) ==>
       IsRebuilt(setup, b, x) && (x.userId == u || x.userId == active)) &&
    b.wallpaperId == a.wallpaperId && b.issued == a.issued && b.currentUserId == u
  }

  ghost predicate SwitchOutcome(setup: Setup, a: State, b: State, u: int, active: int) {
    if u < 0 || u == a.currentUserId then b == a else Switching(setup, a, b, u, active) && BothPresent(b, u)
  }

  /** InitData: a fresh index of user 0, and of the active user where its state file is readable. */
  ghost predicate RestartOutcome(setup: Setup, a: State, b: State, active: int) {
    ScaffoldOnly(a.disk, b.disk) &&
    (forall p :: !Inside(p, UserDir(0)) ==> SameAt(a.disk, b.disk, p)) &&
    (forall x: Slot :: x in b.entries ==> IsRebuilt(setup, b, x) && (x.userId == 0 || x.userId == active)) &&
    BothPresent(b, 0) &&
    b.wallpaperId == -1 && b.issued == 0 && b.currentUserId == 0
  }

  /** Reading the state file of the user yields a text. */
  predicate Speaks(d: Disk, u: int) {
    Content(d, StatePath(u)) != [] && Content(d, StatePath(u))[0] != 0 as char
  }

  /** What a restart does on a reliable system: the active user has entries only if it is user 0 or its state
      file is readable. */
  predicate SureRestart(a: State, b: State, active: int) {
    forall k: WallpaperType :: b.Has(active, k) <==> active == 0 || Speaks(a.disk, active)
  }

  /** What a switch does on a reliable system: a user without a directory gets its directories, and the active
      user has entries if it is the new one, had them, or its state file is readable. */
  predicate SureSwitch(a: State, b: State, u: int, active: int) {
    u >= 0 && u != a.currentUserId ==>
      (PlaceFor(a.disk, u) && !Exists(a.disk, UserDir(u)) ==> UserDirs(u) <= b.disk.dirs) &&
      forall k: WallpaperType :: b.Has(active, k) <==> active == u || a.Has(active, k) || Speaks(a.disk, active)
  }

  /** InitUsersOnBoot: a fresh index of every account. */
  ghost predicate BootOutcome(setup: Setup, a: State, b: State, users: seq<int>) {
    ScaffoldOnly(a.disk, b.disk) &&
    (forall x: Slot :: x.userId in users ==> IsRebuilt(setup, b, x)) &&
    (forall x: Slot :: x.userId !in users ==> SameEntry(a, b, x)) &&
    b.wallpaperId == a.wallpaperId && b.issued == a.issued && b.currentUserId == a.currentUserId
  }

  // ----- which file is served -----

  /** GetWallpaperPath on raw state numbers: 0, 1, 2 for the fold states and 1 for landscape. */
  function GetWallpaperPath(foldState: int, rotateState: int, ps: Pictures): Path {
    if foldState == 2 then
      if rotateState == 1 && ps.unfoldedTwoLandFile != Empty then ps.unfoldedTwoLandFile
      else if ps.unfoldedTwoPortFile != Empty then ps.unfoldedTwoPortFile
      else ps.wallpaperFile
    else if foldState == 1 then
      if rotateState == 1 && ps.unfoldedOneLandFile != Empty then ps.unfoldedOneLandFile
      else if ps.unfoldedOnePortFile != Empty then ps.unfoldedOnePortFile
      else ps.wallpaperFile
    else if foldState == 0 then
      if rotateState == 1 && ps.normalLandFile != Empty then ps.normalLandFile
      else ps.wallpaperFile
    else
      Empty
  }

  /** GetFileNameFromMap: the file that the entry's resource type selects. */
  function ChosenFile(d: WallpaperData): Path {
    match d.resourceType
    case RES_VIDEO => d.liveWallpaperFile
    case RES_PACKAGE => d.customPackageUri
    case _ => d.pictures.wallpaperFile
  }

  ghost predicate LookupOutcome(setup: Setup, a: State, b: State, u: int, t: WallpaperType) {
    if a.Has(u, t) then b == a else InitOutcome(setup, a, b, u)
  }
}
