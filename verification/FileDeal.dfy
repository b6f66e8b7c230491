/** A file system as the service sees it, and the FileDeal operations over it.

    Any system call may fail; the choice `if *` stands for the outcome the operating system picks. On a
    `reliable` system a call fails only for a reason that the disk shows.
    A file opened for writing without truncation keeps the tail that the new bytes do not reach. */
module FileDeal {
  import opened Paths

  type Bytes = string

  datatype Disk = Disk(dirs: set<Path>, files: map<Path, Bytes>)

  predicate Exists(d: Disk, p: Path) {
    p in d.files || p in d.dirs
  }

  function Content(d: Disk, p: Path): Bytes {
    if p in d.files then d.files[p] else []
  }

  /** write(2) at offset 0 of a file that was not truncated. */
  function Overwrite(before: Bytes, bytes: Bytes): Bytes {
    if |before| <= |bytes| then bytes else bytes + before[|bytes|..]
  }

  /** The written bytes are the whole file exactly when no longer file was there before. */
  lemma OverwriteExact(before: Bytes, bytes: Bytes)
    ensures Overwrite(before, bytes) == bytes <==> |before| <= |bytes|
    ensures |Overwrite(before, bytes)| == if |before| <= |bytes| then |bytes| else |before|
  {
    assert |before| > |bytes| ==> |Overwrite(before, bytes)| == |before|;
  }

  /** Byte by byte: the written ones, and behind them what the file had there. */
  lemma OverwriteAt(before: Bytes, bytes: Bytes, i: nat)
    ensures |Overwrite(before, bytes)| == if |before| < |bytes| then |bytes| else |before|
    ensures i < |Overwrite(before, bytes)| ==>
              Overwrite(before, bytes)[i] == if i < |bytes| then bytes[i] else before[i]
  {
  }

  /** Every file and directory except a root sits in an existing directory. */
  ghost predicate IsTree(d: Disk) {
    (forall p :: p in d.dirs ==> p !in d.files && p != Empty && (p.Child? ==> p.parent in d.dirs)) &&
    (forall p :: p in d.files ==> p != Empty && (p.Child? ==> p.parent in d.dirs))
  }

  lemma FileIsNoDir(d: Disk, p: Path)
    requires IsTree(d) && p in d.files
    ensures p !in d.dirs && Exists(d, p)
  {
  }

  ghost predicate SameAt(a: Disk, b: Disk, p: Path) {
    (p in a.dirs <==> p in b.dirs) &&
    (p in a.files <==> p in b.files) &&
    (p in a.files ==> a.files[p] == b.files[p])
  }

  /** `b` is `a` without some of what lies below `root`; the rest, contents included, is as before. */
  ghost predicate Pruned(a: Disk, b: Disk, root: Path) {
    (forall p :: !Below(p, root) ==> SameAt(a, b, p)) &&
    (forall p :: Below(p, root) ==> !Exists(b, p) || SameAt(a, b, p))
  }

  /** What DeleteDir leaves behind. */
  ghost predicate DirDeleted(a: Disk, b: Disk, root: Path, deleteRootDir: bool, ok: bool) {
    (root !in a.dirs ==> !ok) &&
    (if ok then
       (forall p :: Below(p, root) ==> !Exists(b, p)) &&
       (forall p :: !Inside(p, root) ==> SameAt(a, b, p)) &&
       root !in b.files && (root in b.dirs <==> !deleteRootDir)
     else
       Pruned(a, b, root))
  }

  lemma DeletedDirs(a: Disk, b: Disk, root: Path, deleteRootDir: bool, ok: bool)
    requires DirDeleted(a, b, root, deleteRootDir, ok)
    ensures b.dirs <= a.dirs
  {
    forall p | p in b.dirs ensures p in a.dirs {
      assert Inside(p, root) ==> p == root || Below(p, root);
      assert Inside(p, root) || SameAt(a, b, p);
      assert !Below(p, root) || !Exists(b, p) || SameAt(a, b, p);
    }
  }

  /** Where there is no directory, DeleteDir changes nothing. */
  lemma NothingToDelete(a: Disk, b: Disk, root: Path, deleteRootDir: bool, ok: bool)
    requires IsTree(a) && root !in a.dirs && DirDeleted(a, b, root, deleteRootDir, ok)
    ensures !ok && b == a
  {
    forall c | Exists(a, c) ensures !(c.Child? && c.parent == root) {}
    forall p ensures SameAt(a, b, p) {
      if Below(p, root) { NothingBelow(a, root, p); }
    }
    SameEverywhere(a, b);
  }

  lemma SameEverywhere(a: Disk, b: Disk)
    requires forall p :: SameAt(a, b, p)
    ensures a == b
  {
    forall p
      ensures p in a.dirs <==> p in b.dirs
      ensures (p in a.files <==> p in b.files) && (p in a.files ==> a.files[p] == b.files[p])
    {
      assert SameAt(a, b, p);
    }
    assert a.dirs == b.dirs && a.files == b.files;
  }

  predicate Writable(d: Disk, p: Path) {
    p != Empty && p !in d.dirs && (p.Child? ==> p.parent in d.dirs)
  }

  /** open(O_WRONLY | O_CREAT) and write: on failure at most an empty file was created. */
  ghost predicate Written(a: Disk, b: Disk, p: Path, bytes: Bytes, ok: bool) {
    b.dirs == a.dirs &&
    (ok ==> Writable(a, p)) &&
    if ok then b.files == a.files[p := Overwrite(Content(a, p), bytes)]
    else b.files == a.files || (p !in a.files && b.files == a.files[p := []])
  }

  lemma UnwritableUntouched(a: Disk, b: Disk, p: Path, bytes: Bytes, ok: bool)
    requires IsTree(a) && IsTree(b) && Written(a, b, p, bytes, ok) && !Writable(a, p)
    ensures !ok && b == a
  {
  }

  /** copy_file with overwrite_existing: on failure the target may hold anything. */
  ghost predicate Copied(a: Disk, b: Disk, source: Path, target: Path, ok: bool) {
    b.dirs == a.dirs &&
    (forall p :: p != target ==> SameAt(a, b, p)) &&
    (ok ==> source in a.files && target in b.files && b.files[target] == a.files[source])
  }

  lemma {:induction false} NothingBelow(d: Disk, root: Path, p: Path)
    requires IsTree(d)
    requires forall c :: Exists(d, c) ==> !(c.Child? && c.parent == root)
    requires Below(p, root)
    ensures !Exists(d, p)
  {
    if p.parent != root {
      NothingBelow(d, root, p.parent);
    }
  }

  lemma NotBelowItself(p: Path)
    ensures !Below(p, p)
  {
    if Below(p, p) { InsideDepth(p.parent, p); }
  }

  lemma ChildSubtree(root: Path, c: Path)
    requires c.Child? && c.parent == root
    ensures forall p :: Inside(p, c) ==> Below(p, root)
    ensures forall p :: Below(p, c) ==> Below(p, root)
  {
    forall p | Inside(p, c) ensures Below(p, root) {
      InsideOfChild(p, c);
    }
    forall p | Below(p, c) ensures Below(p, root) {
      assert Inside(p, c);
    }
  }

  lemma {:induction false} InsideOfChild(p: Path, c: Path)
    requires c.Child? && Inside(p, c)
    ensures Below(p, c.parent)
  {
    if p != c {
      InsideOfChild(p.parent, c);
    }
  }

  /** Inside `root` something may be gone; everything else is as before. */
  ghost predicate Shrunk(a: Disk, b: Disk, root: Path) {
    (forall p :: !Inside(p, root) ==> SameAt(a, b, p)) &&
    (forall p :: Inside(p, root) ==> !Exists(b, p) || SameAt(a, b, p))
  }

  lemma ShrinkChild(a: Disk, b: Disk, c: Disk, root: Path, entry: Path)
    requires Pruned(a, b, root) && Shrunk(b, c, entry)
    requires entry.Child? && entry.parent == root
    ensures Pruned(a, c, root)
    ensures forall p :: p != entry && p.Child? && p.parent == root ==> SameAt(b, c, p)
  {
    ChildSubtree(root, entry);
    forall p | Below(p, root) ensures !Exists(c, p) || SameAt(a, c, p) {
      assert Inside(p, entry) || SameAt(b, c, p);
    }
    forall p | p != entry && p.Child? && p.parent == root ensures SameAt(b, c, p) {
      if Inside(p, entry) {
        InsideDepth(p, entry);
      }
    }
  }

  lemma DeletedIsShrunk(a: Disk, b: Disk, root: Path, deleteRootDir: bool, ok: bool)
    requires IsTree(a) && DirDeleted(a, b, root, deleteRootDir, ok)
    ensures Shrunk(a, b, root)
  {
    NotBelowItself(root);
    forall p ensures if Inside(p, root) then !Exists(b, p) || SameAt(a, b, p) else SameAt(a, b, p) {
      assert Inside(p, root) <==> p == root || Below(p, root);
    }
  }

  lemma NothingLeft(d: Disk, root: Path)
    requires IsTree(d)
    requires forall c :: Exists(d, c) ==> !(c.Child? && c.parent == root)
    ensures forall p :: Below(p, root) ==> !Exists(d, p)
  {
    forall p | Below(p, root) ensures !Exists(d, p) {
      NothingBelow(d, root, p);
    }
  }

  lemma RootRemoved(a: Disk, b: Disk, c: Disk, root: Path)
    requires Pruned(a, b, root) && (forall p :: Below(p, root) ==> !Exists(b, p))
    requires root in a.dirs && !Exists(c, root)
    requires forall p :: p != root ==> SameAt(b, c, p)
    ensures DirDeleted(a, c, root, true, true)
  {
    NotBelowItself(root);
    forall p | Below(p, root) ensures !Exists(c, p) {
      assert SameAt(b, c, p);
    }
    forall p | !Inside(p, root) ensures SameAt(a, c, p) {
      assert !Below(p, root) && SameAt(a, b, p) && SameAt(b, c, p);
    }
  }

  ghost function DirsInside(d: Disk, root: Path): set<Path> {
    set p | p in d.dirs && Inside(p, root)
  }

  lemma SmallerSubtree(a: Disk, b: Disk, root: Path, entry: Path)
    requires Pruned(a, b, root) && root in a.dirs && entry.Child? && entry.parent == root
    ensures DirsInside(b, entry) < DirsInside(a, root)
  {
    ChildSubtree(root, entry);
    NotBelowItself(root);
    forall p | p in DirsInside(b, entry) ensures p in DirsInside(a, root) {
      assert Exists(b, p) && Below(p, root);
    }
    assert root in DirsInside(a, root);
    assert !Inside(root, entry);
  }

  /** No file or directory has `p` for its parent. */
  ghost predicate NoChildren(d: Disk, p: Path) {
    forall c :: Exists(d, c) ==> !(c.Child? && c.parent == p)
  }

  function ChildrenOf(d: Disk, p: Path): set<Path> {
    set c | c in d.dirs + d.files.Keys && c.Child? && c.parent == p
  }

  lemma ChildGone(a: Disk, b: Disk, root: Path, entry: Path)
    requires forall p :: p != entry && p.Child? && p.parent == root ==> SameAt(a, b, p)
    requires entry in ChildrenOf(a, root) && !Exists(b, entry)
    ensures ChildrenOf(b, root) == ChildrenOf(a, root) - {entry}
  {
    forall c ensures c in ChildrenOf(b, root) <==> c in ChildrenOf(a, root) - {entry} {
      assert c != entry && c.Child? && c.parent == root ==> SameAt(a, b, c);
    }
  }

  lemma ChildIsChild(d: Disk, p: Path, c: Path)
    requires c in ChildrenOf(d, p)
    ensures c.Child? && c.parent == p && Exists(d, c)
  {
  }

  lemma Childless(d: Disk, p: Path)
    requires ChildrenOf(d, p) == {}
    ensures NoChildren(d, p)
  {
    forall c | Exists(d, c) ensures !(c.Child? && c.parent == p) {
      assert c !in ChildrenOf(d, p);
    }
  }

  lemma NothingPruned(d: Disk, root: Path)
    ensures Pruned(d, d, root)
  {
  }

  /** A loop that stopped early is a failed deletion; one that ran to its end a cleared directory. */
  lemma PrunedIsFailed(a: Disk, b: Disk, root: Path, deleteRootDir: bool)
    requires Pruned(a, b, root)
    ensures DirDeleted(a, b, root, deleteRootDir, false) && (root in b.dirs <==> root in a.dirs)
  {
    NotBelowItself(root);
    assert SameAt(a, b, root);
  }

  lemma PrunedIsCleared(a: Disk, b: Disk, root: Path)
    requires IsTree(b) && Pruned(a, b, root) && NoChildren(b, root) && root in a.dirs
    ensures DirDeleted(a, b, root, false, true) && forall p :: Below(p, root) ==> !Exists(b, p)
  {
    NothingLeft(b, root);
    PrunedIsFailed(a, b, root, false);
    forall p | !Inside(p, root) ensures SameAt(a, b, p) {
      assert !Below(p, root);
    }
  }

  class FileSystem {
    const reliable: bool
    var disk: Disk

    function Children(d: Path): set<Path>
      reads this
    {
      ChildrenOf(disk, d)
    }

    /** Whether the directory can be opened. */
    method IsDirExist(p: Path) returns (found: bool)
      ensures found ==> p in disk.dirs
      ensures reliable && p in disk.dirs ==> found
    {
      if !reliable {
        if * {
          return false;
        }
      }
      return p in disk.dirs;
    }

    method Mkdir(p: Path) returns (ok: bool)
      requires IsTree(disk)
      modifies this
      ensures IsTree(disk)
      ensures disk.files == old(disk.files)
      ensures disk.dirs == old(disk.dirs) || disk.dirs == old(disk.dirs) + {p}
      ensures ok ==> p in disk.dirs
      ensures reliable && (p in old(disk.dirs) || (p !in old(disk.files) && Writable(old(disk), p))) ==> ok
    {
      var found := IsDirExist(p);
      if found {
        return true;
      }
      if !reliable {
        if * {
          return false;
        }
      }
      if Exists(disk, p) || !Writable(disk, p) {
        return false;
      }
      disk := disk.(dirs := disk.dirs + {p});
      return true;
    }

    /** remove(3): unlinks a file or removes an empty directory. */
    method Remove(p: Path) returns (ok: bool)
      requires IsTree(disk)
      modifies this
      ensures IsTree(disk)
      ensures !ok ==> disk == old(disk)
      ensures disk.dirs <= old(disk.dirs)
      ensures ok ==> Exists(old(disk), p) && !Exists(disk, p)
      ensures forall q :: q != p ==> SameAt(old(disk), disk, q)
      ensures reliable && (p in old(disk.files) || (p in old(disk.dirs) && NoChildren(old(disk), p))) ==> ok
    {
      if !reliable {
        if * {
          return false;
        }
      }
      if p in disk.files {
        disk := disk.(files := disk.files - {p});
        return true;
      }
      if p in disk.dirs && Children(p) == {} {
        Childless(disk, p);
        disk := disk.(dirs := disk.dirs - {p});
        return true;
      }
      return false;
    }

    method DeleteFile(p: Path) returns (ok: bool)
      requires IsTree(disk)
      modifies this
      ensures IsTree(disk)
      ensures ok <==> !Exists(disk, p)
      ensures !ok ==> disk == old(disk)
      ensures disk.dirs <= old(disk.dirs)
      ensures forall q :: q != p ==> SameAt(old(disk), disk, q)
      ensures reliable && p !in old(disk.dirs) ==> ok
    {
      if !Exists(disk, p) {
        return true;
      }
      ok := Remove(p);
    }

    method Write(p: Path, bytes: Bytes) returns (ok: bool)
      requires IsTree(disk)
      modifies this
      ensures IsTree(disk)
      ensures Written(old(disk), disk, p, bytes, ok)
      ensures reliable && Writable(old(disk), p) ==> ok
    {
      if !reliable {
        if * {
          return false;
        }
      }
      if !Writable(disk, p) {
        return false;
      }
      var before := Content(disk, p);
      if p !in disk.files {
        disk := disk.(files := disk.files[p := []]);
      }
      if !reliable {
        if * {
          return false;
        }
      }
      disk := disk.(files := disk.files[p := Overwrite(before, bytes)]);
      return true;
    }

    method CopyFile(source: Path, target: Path) returns (ok: bool)
      requires IsTree(disk)
      modifies this
      ensures IsTree(disk)
      ensures Copied(old(disk), disk, source, target, ok)
      ensures reliable && source in old(disk.files) && Writable(old(disk), target) && source != target ==> ok
    {
      if source !in disk.files || !Writable(disk, target) || source == target {
        return false;
      }
      if !reliable {
        if * {
          if * {
            var partial: Bytes := *;
            disk := disk.(files := disk.files[target := partial]);
          }
          return false;
        }
      }
      disk := disk.(files := disk.files[target := disk.files[source]]);
      return true;
    }

    /** Recursive deletion in whatever order the directory lists its entries. */
    method DeleteDir(path: Path, deleteRootDir: bool) returns (ok: bool)
      requires IsTree(disk)
      modifies this
      ensures IsTree(disk)
      ensures DirDeleted(old(disk), disk, path, deleteRootDir, ok)
      ensures path !in old(disk.dirs) ==> disk == old(disk)
      ensures reliable && path in old(disk.dirs) ==> ok
      decreases DirsInside(disk, path), 0
    {
      hide IsTree, Pruned, SameAt, Exists, DirDeleted, DirsInside, ChildrenOf, NoChildren, Shrunk, Below;
      NothingPruned(disk, path);
      PrunedIsFailed(disk, disk, path, deleteRootDir);
      if path !in disk.dirs {
        return false;
      }
      if !reliable {
        if * {
          return false;
        }
      }
      var pending := Children(path);
      while pending != {}
        invariant IsTree(disk)
        invariant Pruned(old(disk), disk, path)
        invariant Children(path) == pending
        decreases |pending|
      {
        ghost var before := disk;
        var entry :| entry in pending;
        ChildIsChild(disk, path, entry);
        SmallerSubtree(old(disk), disk, path, entry);
        ok := DeleteEntry(entry);
        ShrinkChild(old(disk), before, disk, path, entry);
        PrunedIsFailed(old(disk), disk, path, deleteRootDir);
        if !ok {
          return;
        }
        ChildGone(before, disk, path, entry);
        pending := pending - {entry};
      }
      Childless(disk, path);
      PrunedIsFailed(old(disk), disk, path, deleteRootDir);
      PrunedIsCleared(old(disk), disk, path);
      ok := true;
      if deleteRootDir {
        ghost var before := disk;
        ok := Remove(path);
        if ok {
          RootRemoved(old(disk), before, disk, path);
        } else {
          PrunedIsFailed(old(disk), disk, path, deleteRootDir);
        }
      }
    }

    /** One turn of that loop. */
    method DeleteEntry(entry: Path) returns (ok: bool)
      requires IsTree(disk)
      modifies this
      ensures IsTree(disk)
      ensures Shrunk(old(disk), disk, entry)
      ensures ok ==> !Exists(disk, entry)
      ensures reliable && Exists(old(disk), entry) ==> ok
      decreases DirsInside(disk, entry), 1
    {
      if entry in disk.dirs {
        ok := DeleteDir(entry, true);
        DeletedIsShrunk(old(disk), disk, entry, true, ok);
      } else {
        ok := Remove(entry);
      }
    }
  }
}
