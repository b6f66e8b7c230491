/** The descriptors the client library owns, one for each wallpaper type. */
module ClientDescriptors {
  datatype Code = E_OK | E_DEAL_FAILED | E_SA_DIED | E_REFUSED | E_DEAD_OBJECT

  /** A wallpaper type as the caller passes it: any 32-bit number. */
  datatype Kind = Kind(number: int)

  datatype Fd = Fd(number: int)

  const NONE := Fd(-1)

  /** One act of opening: a number is used again after it is closed, an opening never. */
  datatype Opening = Opening(id: nat)

  datatype Reply = Reply(code: Code, fd: Fd)

  predicate Gives(r: Reply) {
    r.code == E_OK && r.fd != NONE
  }

  /** The numbers the client holds, the descriptor table of the process, every opening the service
      handed over, and how often the client closed each opening. */
  datatype Desk = Desk(
    files: map<Kind, Fd>,
    open: map<Fd, Opening>,
    issued: nat,
    obtained: set<Opening>,
    closed: multiset<Opening>)

  /** What CloseWallpaperFd leaves. */
  function Released(d: Desk, k: Kind): Desk {
    if k in d.files && d.files[k] in d.open then
      var f := d.files[k];
      d.(files := d.files - {k}, open := d.open - {f}, closed := d.closed + multiset{d.open[f]})
    else
      d
  }

  /** What GetFile leaves: a number already held for this type is not replaced. */
  function Fetched(d: Desk, k: Kind, r: Reply): Desk {
    var e := Released(d, k);
    if !Gives(r) then e
    else
      var o := Opening(e.issued);
      e.(open := e.open[r.fd := o], issued := e.issued + 1, obtained := e.obtained + {o},
         files := if k in e.files then e.files else e.files[k := r.fd])
  }

  /** The openings behind a set of numbers. */
  function Behind(open: map<Fd, Opening>, fds: set<Fd>): set<Opening> {
    set f | f in fds && f in open :: open[f]
  }

  /** What the destructor leaves. */
  function Destroyed(d: Desk): Desk {
    d.(open := d.open - d.files.Values, closed := d.closed + multiset(Behind(d.open, d.files.Values)))
  }

  lemma OneMoreClosed(open: map<Fd, Opening>, done: set<Fd>, f: Fd)
    requires forall g, h :: g in open && h in open && open[g] == open[h] ==> g == h
    ensures (open - done) - {f} == open - (done + {f})
    ensures multiset(Behind(open, done + {f})) ==
            if f in open - done then multiset(Behind(open, done)) + multiset{open[f]} else multiset(Behind(open, done))
  {
    if f in open - done {
      assert Behind(open, done + {f}) == Behind(open, done) + {open[f]};
      assert open[f] !in Behind(open, done);
    } else {
      assert Behind(open, done + {f}) == Behind(open, done);
    }
  }

  lemma OneMoreDone(files: map<Kind, Fd>, pending: set<Kind>, k: Kind)
    requires k in pending && pending <= files.Keys
    ensures (set j | j in files && j !in pending - {k} :: files[j]) ==
            (set j | j in files && j !in pending :: files[j]) + {files[k]}
  {
  }

  datatype Event =
    | Fetch(kind: Kind, reply: Reply)
    | Release(kind: Kind)
    | OtherOpens(fd: Fd)
    | OtherCloses(fd: Fd)

  function Happen(d: Desk, e: Event): Desk {
    match e
    case Fetch(k, r) => Fetched(d, k, r)
    case Release(k) => Released(d, k)
    case OtherOpens(f) => d.(open := d.open[f := Opening(d.issued)], issued := d.issued + 1)
    case OtherCloses(f) => d.(open := d.open - {f})
  }

  /** A new descriptor gets a number that is not in use. */
  predicate Possible(d: Desk, e: Event) {
    match e
    case Fetch(k, r) => Gives(r) ==> r.fd !in Released(d, k).open
    case OtherOpens(f) => f !in d.open
    case Release(_) => true
    case OtherCloses(_) => true
  }

  /** Nobody else closes what the client obtained. */
  predicate Polite(d: Desk, e: Event) {
    e.OtherCloses? && e.fd in d.open ==> d.open[e.fd] !in d.obtained
  }

  function After(d: Desk, es: seq<Event>): Desk {
    if es == [] then d else Happen(After(d, es[..|es| - 1]), es[|es| - 1])
  }

  ghost predicate PoliteRun(d: Desk, es: seq<Event>) {
    forall i :: 0 <= i < |es| ==> Possible(After(d, es[..i]), es[i]) && Polite(After(d, es[..i]), es[i])
  }

  /** No opening has two numbers, and every opening so far was counted. */
  predicate TableOk(d: Desk) {
    && (forall f, g :: f in d.open && g in d.open && d.open[f] == d.open[g] ==> f == g)
    && (forall f :: f in d.open ==> d.open[f].id < d.issued)
    && (forall o :: o in d.obtained ==> o.id < d.issued)
  }

  /** Every number held is open, was obtained, and is held for one type; nothing else obtained is open. */
  ghost predicate Held(d: Desk) {
    && (forall j, k :: j in d.files && k in d.files && d.files[j] == d.files[k] ==> j == k)
    && (forall k :: k in d.files ==> d.files[k] in d.open && d.open[d.files[k]] in d.obtained)
    && (forall f :: f in d.open && d.open[f] in d.obtained ==> exists k :: k in d.files && d.files[k] == f)
  }

  /** The client has closed every opening it obtained that is no longer open exactly once, and nothing else. */
  ghost predicate Counted(d: Desk) {
    forall o :: d.closed[o] == if o in d.obtained && o !in d.open.Values then 1 else 0
  }

  ghost predicate Owned(d: Desk) {
    TableOk(d) && Held(d) && Counted(d)
  }

  lemma WithoutOne(open: map<Fd, Opening>, f: Fd)
    requires f in open && forall g, h :: g in open && h in open && open[g] == open[h] ==> g == h
    ensures (open - {f}).Values == open.Values - {open[f]}
  {
    var e := open - {f};
    forall o | o in open.Values - {open[f]} ensures o in e.Values {
      var g :| g in open && open[g] == o;
      assert e[g] == o;
    }
  }

  lemma WithOne(open: map<Fd, Opening>, f: Fd, o: Opening)
    requires f !in open
    ensures open[f := o].Values == open.Values + {o}
  {
    var e := open[f := o];
    assert e[f] == o;
    forall p | p in open.Values ensures p in e.Values {
      var g :| g in open && open[g] == p;
      assert e[g] == p;
    }
  }

  lemma ReleaseHolds(d: Desk, k: Kind)
    requires TableOk(d) && Held(d)
    ensures TableOk(Released(d, k)) && Held(Released(d, k))
  {
    if k in d.files && d.files[k] in d.open {
      var e := Released(d, k);
      forall f | f in e.open && e.open[f] in e.obtained ensures exists j :: j in e.files && e.files[j] == f {
        var j :| j in d.files && d.files[j] == f;
        assert j in e.files;
      }
    }
  }

  lemma ReleaseCounts(d: Desk, k: Kind)
    requires Owned(d)
    ensures Counted(Released(d, k))
  {
    if k in d.files && d.files[k] in d.open {
      WithoutOne(d.open, d.files[k]);
      var e, p := Released(d, k), d.open[d.files[k]];
      assert p in d.open.Values;
      hide TableOk, Held;
      forall o ensures e.closed[o] == if o in e.obtained && o !in e.open.Values then 1 else 0 {
        assert d.closed[o] == if o in d.obtained && o !in d.open.Values then 1 else 0;
      }
    }
  }

  lemma ReleaseOwns(d: Desk, k: Kind)
    requires Owned(d)
    ensures Owned(Released(d, k))
  {
    ReleaseHolds(d, k);
    ReleaseCounts(d, k);
  }

  /** A step leaves ownership exact if and only if nobody else closes what the client obtained. */
  lemma StepOwnsExactly(d: Desk, e: Event)
    requires Owned(d) && Possible(d, e)
    ensures Owned(Happen(d, e)) <==> Polite(d, e)
  {
    hide TableOk, Held, Counted;
    match e
    case Fetch(k, r) => FetchOwns(d, k, r);
    case Release(k) => ReleaseOwns(d, k);
    case OtherOpens(f) => OtherOpenedOwned(d, f);
    case OtherCloses(f) =>
      if f in d.open {
        OtherClosedOwned(d, f);
      } else {
        assert d.open - {f} == d.open;
      }
  }

  lemma FetchOwns(d: Desk, k: Kind, r: Reply)
    requires Owned(d) && Possible(d, Fetch(k, r))
    ensures Owned(Fetched(d, k, r))
  {
    ReleaseOwns(d, k);
    ReleasedIsFree(d, k);
    hide TableOk, Held, Counted;
    if Gives(r) { NewOneOwned(Released(d, k), k, r); }
  }

  /** With every number held open, releasing a type frees it. */
  lemma ReleasedIsFree(d: Desk, k: Kind)
    requires Held(d)
    ensures k !in Released(d, k).files
  {
  }

  lemma NewOneHeld(d: Desk, k: Kind, r: Reply)
    requires TableOk(d) && Held(d) && k !in d.files && Gives(r) && r.fd !in d.open
    ensures TableOk(Fetched(d, k, r)) && Held(Fetched(d, k, r))
  {
    var e := Fetched(d, k, r);
    forall f | f in e.open && e.open[f] in e.obtained ensures exists j :: j in e.files && e.files[j] == f {
      if f == r.fd {
        assert k in e.files;
      } else {
        var j :| j in d.files && d.files[j] == f;
        assert j in e.files;
      }
    }
  }

  lemma NewOneOwned(d: Desk, k: Kind, r: Reply)
    requires Owned(d) && k !in d.files && Gives(r) && r.fd !in d.open
    ensures Owned(Fetched(d, k, r))
  {
    NewOneHeld(d, k, r);
    OpenedCounts(d, r.fd);
    hide TableOk, Held;
  }

  /** An opening nobody has seen before was not closed. */
  lemma OpenedCounts(d: Desk, f: Fd)
    requires TableOk(d) && Counted(d) && f !in d.open
    ensures var o := Opening(d.issued);
            forall p :: d.closed[p] == if p in d.obtained + {o} && p !in d.open[f := o].Values then 1 else 0
  {
    WithOne(d.open, f, Opening(d.issued));
    forall p
      ensures d.closed[p] ==
              if p in d.obtained + {Opening(d.issued)} && p !in d.open[f := Opening(d.issued)].Values then 1 else 0
    {
      assert d.closed[p] == if p in d.obtained && p !in d.open.Values then 1 else 0;
    }
  }

  lemma OtherOpenedOwned(d: Desk, f: Fd)
    requires Owned(d) && f !in d.open
    ensures Owned(Happen(d, OtherOpens(f)))
  {
    OpenedCounts(d, f);
  }

  lemma OtherClosedOwned(d: Desk, f: Fd)
    requires Owned(d) && f in d.open
    ensures Owned(Happen(d, OtherCloses(f))) <==> d.open[f] !in d.obtained
  {
    var e := Happen(d, OtherCloses(f));
    if d.open[f] in d.obtained {
      var k :| k in d.files && d.files[k] == f;
      assert k in e.files && e.files[k] !in e.open;
    } else {
      assert TableOk(e) && Held(e);
      WithoutOne(d.open, f);
      hide TableOk, Held;
      forall o ensures e.closed[o] == if o in e.obtained && o !in e.open.Values then 1 else 0 {
        assert d.closed[o] == if o in d.obtained && o !in d.open.Values then 1 else 0;
      }
    }
  }

  /** After any run in which nobody else closes them, the descriptors obtained and still open are
      exactly the values held, one for each type. */
  lemma {:induction false} RunOwns(d: Desk, es: seq<Event>)
    requires Owned(d) && PoliteRun(d, es)
    ensures Owned(After(d, es))
  {
    if es != [] {
      var n := |es| - 1;
      forall i | 0 <= i < n ensures es[..n][..i] == es[..i] {
      }
      RunOwns(d, es[..n]);
      StepOwnsExactly(After(d, es[..n]), es[n]);
    }
  }

  function Started(open: map<Fd, Opening>, issued: nat): Desk {
    Desk(map[], open, issued, {}, multiset{})
  }

  /** From the first call to the end of the destructor, every descriptor obtained is closed exactly once,
      nothing else is closed, and none of them is left open. */
  lemma EachClosedOnce(open: map<Fd, Opening>, issued: nat, es: seq<Event>)
    requires TableOk(Started(open, issued)) && PoliteRun(Started(open, issued), es)
    ensures var d := Destroyed(After(Started(open, issued), es));
            && d.closed == multiset(d.obtained)
            && Behind(d.open, d.open.Keys) !! d.obtained
  {
    RunOwns(Started(open, issued), es);
    var d := After(Started(open, issued), es);
    DestructionCloses(d);
  }

  lemma DestructionCloses(d: Desk)
    requires Owned(d)
    ensures Destroyed(d).closed == multiset(d.obtained)
    ensures Behind(Destroyed(d).open, Destroyed(d).open.Keys) !! d.obtained
  {
    var e, b := Destroyed(d), Behind(d.open, d.files.Values);
    forall f | f in d.open && d.open[f] in d.obtained ensures f in d.files.Values {
      var k :| k in d.files && d.files[k] == f;
    }
    forall o ensures e.closed[o] == multiset(d.obtained)[o] {
      assert d.closed[o] == if o in d.obtained && o !in d.open.Values then 1 else 0;
      if o in d.open.Values && o in d.obtained {
        var f :| f in d.open && d.open[f] == o;
        assert f in d.files.Values;
        assert o in b;
      }
    }
  }

  // ----- a descriptor somebody else closed -----

  /** The descriptor just obtained outlives the destructor if and only if the number held for its type is
      no longer open, and none of the numbers held, for whatever type, is the new one. */
  lemma FetchedIsLostExactly(d: Desk, k: Kind, r: Reply)
    requires TableOk(d) && Gives(r) && Possible(d, Fetch(k, r))
    ensures Opening(d.issued) in Destroyed(Fetched(d, k, r)).open.Values
            <==> k in d.files && d.files[k] !in d.open && r.fd !in d.files.Values
  {
    var e := Fetched(d, k, r);
    var x := Destroyed(e);
    assert e.open[r.fd] == Opening(d.issued);
    if k in d.files && d.files[k] !in d.open {
      assert e.files == d.files;
      if r.fd !in d.files.Values {
        assert r.fd in x.open;
      }
    } else {
      assert e.files[k] == r.fd;
      assert r.fd in e.files.Values;
    }
  }

  /** A descriptor that is open and not held stays so, through every later call and the destructor,
      unless somebody else closes it. */
  lemma {:induction false} LostForever(d: Desk, es: seq<Event>, f: Fd)
    requires f in d.open && f !in d.files.Values
    requires forall i :: 0 <= i < |es| ==> Possible(After(d, es[..i]), es[i]) && es[i] != OtherCloses(f)
    ensures f in After(d, es).open && After(d, es).open[f] == d.open[f] && f !in After(d, es).files.Values
    ensures f in Destroyed(After(d, es)).open && Destroyed(After(d, es)).open[f] == d.open[f]
  {
    if es != [] {
      var n := |es| - 1;
      forall i | 0 <= i < n ensures es[..n][..i] == es[..i] {
      }
      LostForever(d, es[..n], f);
      LostStep(After(d, es[..n]), es[n], f);
    }
  }

  lemma LostStep(d: Desk, e: Event, f: Fd)
    requires f in d.open && f !in d.files.Values
    requires Possible(d, e) && e != OtherCloses(f)
    ensures f in Happen(d, e).open && Happen(d, e).open[f] == d.open[f] && f !in Happen(d, e).files.Values
  {
    assert forall k :: k in d.files ==> d.files[k] in d.files.Values;
  }
}
