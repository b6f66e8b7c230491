/** What registering the same listeners again leaves in the service. */
module ClientReplay {
  import opened ColorBoard

  type Listeners = map<string, Listener>

  /** What one process has registered. */
  function Registrations(r: Registry, k: Token): Listeners {
    map e | e in r && k in r[e] :: r[e][k]
  }

  /** A registry after one process registered these listeners. */
  function Overlay(r: Registry, k: Token, ls: Listeners): Registry {
    map e | e in r.Keys + ls.Keys :: if e in ls then Registered(r, e)[k := ls[e]] else r[e]
  }

  /** What happens to one call to the service. */
  datatype Delivery = Delivered | Dropped | ReplyLost

  /** What one pass meets: whether a service can be found, and what happens to each call. */
  datatype Pass = Pass(found: bool, delivery: string -> Delivery)

  /** The service refuses this event to an ordinary application. */
  predicate Accepts(event: string, systemApp: bool) {
    event != WALLPAPER_CHANGE || systemApp
  }

  predicate AllDelivered(ls: Listeners, delivery: string -> Delivery, systemApp: bool) {
    forall e :: e in ls ==> delivery(e) == Delivered && Accepts(e, systemApp)
  }

  /** What one call leaves in the service. */
  function Called(b: Board, q: Request, d: Delivery): Board {
    if d == Dropped then b else Apply(b, q)
  }

  function Overlaid(b: Board, k: Token, ls: Listeners): Board {
    b.(registry := Overlay(b.registry, k, ls))
  }

  ghost predicate PassSucceeds(ls: Listeners, systemApp: bool, connected: bool, passes: nat -> Pass, i: nat) {
    && (connected || exists j :: 0 <= j <= i && passes(j).found)
    && AllDelivered(ls, passes(i).delivery, systemApp)
  }

  lemma PassMeans(ls: Listeners, systemApp: bool, connected: bool, passes: nat -> Pass, i: nat)
    ensures PassSucceeds(ls, systemApp, connected, passes, i) <==>
            && (connected || passes(i).found || exists j :: 0 <= j < i && passes(j).found)
            && AllDelivered(ls, passes(i).delivery, systemApp)
  {
  }

  const MAX_RETRY_TIMES := 10

  /** A call whose reply is lost has registered the listener all the same, one that is dropped changes nothing. */
  lemma LostReplyRegisters(b: Board, e: string, k: Token, l: Listener, systemApp: bool)
    requires l != Null && (e == "wallpaperChange" ==> systemApp)
    ensures forall d :: d != Dropped ==> Registers(Called(b, Request.On(e, k, l, systemApp), d).registry, e, k, l)
    ensures forall q :: Called(b, q, Dropped) == b && Called(b, q, ReplyLost) == Called(b, q, Delivered)
  {
  }

  // ----- one pass in the order of the events -----

  /** The order of strings by their characters: events are kept, and visited, in this order. */
  predicate Before(a: string, b: string) {
    b != [] && (a == [] || a[0] < b[0] || (a[0] == b[0] && Before(a[1..], b[1..])))
  }

  lemma {:induction false} BeforeIsTotal(a: string, b: string)
    ensures !(Before(a, b) && Before(b, a))
    ensures a == b || Before(a, b) || Before(b, a)
  {
    if a != [] && b != [] {
      BeforeIsTotal(a[1..], b[1..]);
      assert a == [a[0]] + a[1..] && b == [b[0]] + b[1..];
    }
  }

  lemma {:induction false} BeforeIsTransitive(a: string, b: string, c: string)
    requires Before(a, b) && Before(b, c)
    ensures Before(a, c)
  {
    if a != [] && a[0] == b[0] == c[0] {
      BeforeIsTransitive(a[1..], b[1..], c[1..]);
    }
  }

  ghost predicate IsLeast(s: set<string>, e: string) {
    e in s && forall f :: f in s && f != e ==> Before(e, f)
  }

  lemma {:induction false} LeastExists(s: set<string>) returns (e: string)
    requires s != {}
    ensures IsLeast(s, e)
  {
    var x :| x in s;
    var rest := s - {x};
    e := x;
    if rest == {} {
      assert s == {x};
    } else {
      var f := LeastExists(rest);
      BeforeIsTotal(x, f);
      if Before(f, x) { e := f; }
      forall g | g in s && g != e ensures Before(e, g) {
        assert g == x || g in rest;
        if e == x && g != f { BeforeIsTransitive(x, f, g); }
      }
    }
  }

  /** The service takes the listener, and the client learns of it. */
  predicate Taken(e: string, delivery: string -> Delivery, systemApp: bool) {
    delivery(e) == Delivered && Accepts(e, systemApp)
  }

  /** What one pass registers: events come in order and the first that is not taken ends the pass; that one is
      registered, too, if only its reply was lost. */
  function Attempted(ls: Listeners, delivery: string -> Delivery, systemApp: bool): Listeners {
    map e | e in ls && (forall f :: f in ls && Before(f, e) ==> Taken(f, delivery, systemApp)) &&
            delivery(e) != Dropped && Accepts(e, systemApp) :: ls[e]
  }

  /** What the first `n` passes register together. */
  ghost function Attempts(ls: Listeners, systemApp: bool, connected: bool, passes: nat -> Pass, n: nat): Listeners {
    if n == 0 then map[]
    else
      var before := Attempts(ls, systemApp, connected, passes, n - 1);
      if connected || exists j :: 0 <= j < n && passes(j).found then
        before + Attempted(ls, passes(n - 1).delivery, systemApp)
      else
        before
  }

  lemma AttemptsStep(ls: Listeners, systemApp: bool, connected: bool, passes: nat -> Pass, n: nat)
    ensures Attempts(ls, systemApp, connected, passes, 0) == map[]
    ensures Attempts(ls, systemApp, connected, passes, n + 1) ==
            var before := Attempts(ls, systemApp, connected, passes, n);
            if connected || passes(n).found || exists j :: 0 <= j < n && passes(j).found then
              before + Attempted(ls, passes(n).delivery, systemApp)
            else
              before
  {
    hide Attempted;
  }

  /** The visited events are taken, and come before all others. */
  ghost predicate Visited(ls: Listeners, pending: set<string>, delivery: string -> Delivery, systemApp: bool) {
    pending <= ls.Keys &&
    (forall e :: e in ls && e !in pending ==> Taken(e, delivery, systemApp)) &&
    (forall e, f :: e in ls && e !in pending && f in pending ==> Before(e, f))
  }

  lemma VisitedNone(ls: Listeners, delivery: string -> Delivery, systemApp: bool)
    ensures Visited(ls, ls.Keys, delivery, systemApp)
  {
  }

  lemma VisitedOneMore(ls: Listeners, pending: set<string>, e: string, delivery: string -> Delivery, systemApp: bool)
    requires Visited(ls, pending, delivery, systemApp) && IsLeast(pending, e) && Taken(e, delivery, systemApp)
    ensures Visited(ls, pending - {e}, delivery, systemApp)
  {
  }

  lemma VisitedAll(ls: Listeners, done: Listeners, delivery: string -> Delivery, systemApp: bool)
    requires Visited(ls, {}, delivery, systemApp) && done.Keys == ls.Keys && Within(done, ls)
    ensures done == ls == Attempted(ls, delivery, systemApp) && AllDelivered(ls, delivery, systemApp)
  {
  }

  lemma PassStops(ls: Listeners, pending: set<string>, done: Listeners, e: string, delivery: string -> Delivery,
                  systemApp: bool)
    requires Visited(ls, pending, delivery, systemApp) && IsLeast(pending, e) && !Taken(e, delivery, systemApp)
    requires done.Keys == ls.Keys - pending && Within(done, ls)
    ensures Added(done, e, ls[e], delivery(e), systemApp) == Attempted(ls, delivery, systemApp)
    ensures !AllDelivered(ls, delivery, systemApp)
  {
    var x, y := Added(done, e, ls[e], delivery(e), systemApp), Attempted(ls, delivery, systemApp);
    forall g ensures g in x <==> g in y {
      if g in pending && g != e {
        BeforeIsTotal(e, g);
      } else if g in ls {
        forall f | f in ls && Before(f, g) ensures Taken(f, delivery, systemApp) {
          if f in pending { BeforeIsTotal(f, g); }
        }
      }
    }
    assert x.Keys == y.Keys;
  }

  /** With every call delivered, an ordinary application that remembers a listener for wallpaper changes gets
      back only the listeners for events that come before it; whatever else it remembers is lost. */
  lemma RefusalCutsReplay(ls: Listeners, delivery: string -> Delivery)
    requires forall e :: delivery(e) == Delivered
    ensures var kept := Attempted(ls, delivery, false);
            forall e :: e in kept <==> e in ls && e != "wallpaperChange" &&
                                       ("wallpaperChange" in ls ==> Before(e, "wallpaperChange"))
  {
    forall e | e in ls && e != "wallpaperChange" && "wallpaperChange" in ls
      ensures Before(e, "wallpaperChange") || Before("wallpaperChange", e)
    {
      BeforeIsTotal(e, "wallpaperChange");
    }
    forall e, f | Before(f, e) && Before(e, "wallpaperChange") ensures f != "wallpaperChange" {
      BeforeIsTotal(e, f);
    }
  }

  lemma OverlayNothing(r: Registry, k: Token)
    ensures Overlay(r, k, map[]) == r
  {
    assert Overlay(r, k, map[]).Keys == r.Keys;
  }

  lemma UpdatedTwice(m: map<Token, Listener>, k: Token, l: Listener, n: Listener)
    ensures m[k := l][k := n] == m[k := n]
  {
  }

  lemma OverlaidAt(r: Registry, k: Token, ls: Listeners, e: string)
    ensures Registered(Overlay(r, k, ls), e) == if e in ls then Registered(r, e)[k := ls[e]] else Registered(r, e)
    ensures e in Overlay(r, k, ls) ==> Overlay(r, k, ls)[e] == Registered(Overlay(r, k, ls), e)
    ensures Overlay(r, k, ls).Keys == r.Keys + ls.Keys
  {
  }

  lemma OverlayTwice(r: Registry, k: Token, ls: Listeners, ms: Listeners)
    ensures Overlay(Overlay(r, k, ls), k, ms) == Overlay(r, k, ls + ms)
  {
    var o := Overlay(r, k, ls);
    var x, y := Overlay(o, k, ms), Overlay(r, k, ls + ms);
    OverlaidAt(r, k, ls, "");
    OverlaidAt(o, k, ms, "");
    OverlaidAt(r, k, ls + ms, "");
    assert x.Keys == y.Keys;
    hide Overlay, Registered;
    forall f | f in x ensures x[f] == y[f] {
      OverlaidAt(r, k, ls, f);
      OverlaidAt(o, k, ms, f);
      OverlaidAt(r, k, ls + ms, f);
      if f in ls && f in ms {
        UpdatedTwice(Registered(r, f), k, ls[f], ms[f]);
      }
    }
  }

  lemma OverlayOne(r: Registry, k: Token, ls: Listeners, e: string, l: Listener)
    ensures var o := Overlay(r, k, ls);
            o[e := Registered(o, e)[k := l]] == Overlay(r, k, ls[e := l])
  {
    var o, one := Overlay(r, k, ls), map[e := l];
    OverlayTwice(r, k, ls, one);
    assert ls + one == ls[e := l];
    var x, y := Overlay(o, k, one), o[e := Registered(o, e)[k := l]];
    assert x.Keys == y.Keys;
  }

  lemma OverlaidNothing(b: Board, k: Token)
    ensures Overlaid(b, k, map[]) == b
  {
    OverlayNothing(b.registry, k);
  }

  lemma OverlaidTwice(b: Board, k: Token, ls: Listeners, ms: Listeners)
    ensures Overlaid(Overlaid(b, k, ls), k, ms) == Overlaid(b, k, ls + ms)
  {
    OverlayTwice(b.registry, k, ls, ms);
  }

  /** The listeners a call adds. */
  function Added(done: Listeners, e: string, l: Listener, delivery: Delivery, systemApp: bool): Listeners {
    if delivery != Dropped && Accepts(e, systemApp) then done[e := l] else done
  }

  lemma OneCall(b: Board, k: Token, done: Listeners, e: string, l: Listener, delivery: Delivery, systemApp: bool)
    requires l != Null
    ensures Called(Overlaid(b, k, done), Request.On(e, k, l, systemApp), delivery) ==
            Overlaid(b, k, Added(done, e, l, delivery, systemApp))
  {
    OverlayOne(b.registry, k, done, e, l);
    hide Overlay;
  }

  lemma RegistrationsAt(r: Registry, k: Token, e: string)
    ensures e in Registrations(r, k) <==> k in Registered(r, e)
    ensures e in Registrations(r, k) ==> Registrations(r, k)[e] == Registered(r, e)[k]
  {
  }

  lemma OverlaidRegistrations(r: Registry, k: Token, ls: Listeners, j: Token)
    ensures Registrations(Overlay(r, k, ls), j) == if j == k then Registrations(r, j) + ls else Registrations(r, j)
  {
    var o := Overlay(r, k, ls);
    var x, y := Registrations(o, j), if j == k then Registrations(r, j) + ls else Registrations(r, j);
    hide Overlay, Registered, Registrations;
    forall e ensures e in x <==> e in y {
      OverlaidAt(r, k, ls, e);
      RegistrationsAt(r, j, e);
      RegistrationsAt(o, j, e);
    }
    assert x.Keys == y.Keys;
    forall e | e in x ensures x[e] == y[e] {
      OverlaidAt(r, k, ls, e);
      RegistrationsAt(r, j, e);
      RegistrationsAt(o, j, e);
    }
  }

  lemma Joined(a: Listeners, ls: Listeners)
    ensures a + ls == ls <==> a.Keys <= ls.Keys
  {
    assert (a + ls).Keys == a.Keys + ls.Keys;
    if a.Keys <= ls.Keys {
      assert (a + ls).Keys == ls.Keys;
    }
  }

  /** After a successful replay the process has registered exactly what it remembers, if and only if it
      had nothing else registered before, as in a service that has just started. Nobody else is affected. */
  lemma ReplayRestoresExactly(r: Registry, k: Token, ls: Listeners)
    ensures Registrations(Overlay(r, k, ls), k) == ls <==> Registrations(r, k).Keys <= ls.Keys
    ensures Registrations(Overlay(map[], k, ls), k) == ls
    ensures forall j :: j != k ==> Registrations(Overlay(r, k, ls), j) == Registrations(r, j)
  {
    OverlaidRegistrations(r, k, ls, k);
    OverlaidRegistrations(map[], k, ls, k);
    assert Registrations(map[], k) == map[];
    hide Overlay, Registrations;
    Joined(Registrations(r, k), ls);
    Joined(map[], ls);
    forall j | j != k ensures Registrations(Overlay(r, k, ls), j) == Registrations(r, j) {
      OverlaidRegistrations(r, k, ls, j);
    }
  }

  predicate Within(done: Listeners, ls: Listeners) {
    forall e :: e in done ==> e in ls && done[e] == ls[e]
  }

  lemma AttemptedWithin(ls: Listeners, delivery: string -> Delivery, systemApp: bool)
    ensures Within(Attempted(ls, delivery, systemApp), ls)
  {
  }

  lemma NothingWithin(ls: Listeners)
    ensures Within(map[], ls)
  {
  }

  lemma WithinBoth(done: Listeners, more: Listeners, ls: Listeners)
    requires Within(done, ls) && Within(more, ls)
    ensures Within(done + more, ls) && (more == ls ==> done + more == ls)
  {
    if more == ls {
      assert (done + more).Keys == ls.Keys;
    }
  }
}
