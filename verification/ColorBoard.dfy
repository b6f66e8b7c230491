/** The colours of the two screens, and who is told when they change. */
module ColorBoard {
  import opened Paths

  /** A calling process. */
  datatype Token = Token(id: int)

  datatype Listener = Null | Remote(id: int)

  datatype Notice = Notice(color: int, wallpaperType: WallpaperType)

  datatype Answer = OK | DEAL_FAILED | NOT_SYSTEM_APP

  const WALLPAPER_CHANGE := "wallpaperChange"
  const COLOR_CHANGE := "colorChange"

  type Registry = map<string, map<Token, Listener>>

  function Registered(r: Registry, event: string): map<Token, Listener> {
    if event in r then r[event] else map[]
  }

  /** The colours, the registry, every colour announced so far, and what each process was sent. */
  datatype Board = Board(
    systemColor: int,
    lockColor: int,
    registry: Registry,
    announced: seq<Notice>,
    sent: map<Token, seq<Notice>>)

  function ColorOf(b: Board, t: WallpaperType): int {
    if t.System? then b.systemColor else b.lockColor
  }

  function SentTo(sent: map<Token, seq<Notice>>, k: Token): seq<Notice> {
    if k in sent then sent[k] else []
  }

  /** The processes with a live listener for colours. */
  function Receivers(r: Registry): set<Token> {
    set k | k in Registered(r, COLOR_CHANGE) && Registered(r, COLOR_CHANGE)[k] != Null
  }

  function Deliver(sent: map<Token, seq<Notice>>, to: set<Token>, n: Notice): map<Token, seq<Notice>> {
    map k | k in sent.Keys + to :: if k in to then SentTo(sent, k) + [n] else sent[k]
  }

  lemma DeliverNone(sent: map<Token, seq<Notice>>, n: Notice)
    ensures Deliver(sent, {}, n) == sent
  {
    var d := Deliver(sent, {}, n);
    assert d.Keys == sent.Keys;
    assert forall k :: k in d ==> d[k] == sent[k];
  }

  lemma DeliverOne(sent: map<Token, seq<Notice>>, told: set<Token>, k: Token, n: Notice)
    requires k !in told
    ensures var d := Deliver(sent, told, n); d[k := SentTo(d, k) + [n]] == Deliver(sent, told + {k}, n)
  {
    var d, e := Deliver(sent, told, n), Deliver(sent, told + {k}, n);
    var f := d[k := SentTo(d, k) + [n]];
    assert SentTo(d, k) == SentTo(sent, k);
    assert f.Keys == sent.Keys + told + {k} == e.Keys;
    assert forall j :: j in f ==> f[j] == e[j];
  }

  datatype Request =
    | Picked(wallpaperType: WallpaperType, color: int)
    | On(event: string, token: Token, listener: Listener, systemApp: bool)
    | Off(event: string, token: Token, systemApp: bool)

  function Fresh(): Board {
    Board(0, 0, map[], [], map[])
  }

  function Apply(b: Board, q: Request): Board {
    match q
    case Picked(t, color) =>
      if ColorOf(b, t) == color then b
      else
        var n := Notice(color, t);
        b.(systemColor := if t.System? then color else b.systemColor,
           lockColor := if t.System? then b.lockColor else color,
           announced := b.announced + [n],
           sent := Deliver(b.sent, Receivers(b.registry), n))
    case On(event, token, listener, systemApp) =>
      if listener == Null || (event == WALLPAPER_CHANGE && !systemApp) then b
      else b.(registry := b.registry[event := Registered(b.registry, event)[token := listener]])
    case Off(event, token, systemApp) =>
      if (event == WALLPAPER_CHANGE && !systemApp) || event !in b.registry then b
      else b.(registry := b.registry[event := b.registry[event] - {token}])
  }

  function After(b: Board, qs: seq<Request>): Board {
    if qs == [] then b else Apply(After(b, qs[..|qs| - 1]), qs[|qs| - 1])
  }

  // ----- the colours of one screen -----

  function Colors(ns: seq<Notice>, t: WallpaperType): seq<int> {
    if ns == [] then []
    else
      var n := ns[|ns| - 1];
      Colors(ns[..|ns| - 1], t) + if n.wallpaperType == t then [n.color] else []
  }

  function LastOr(cs: seq<int>, c: int): int {
    if cs == [] then c else cs[|cs| - 1]
  }

  /** No colour repeats the one before it, and the first one is not zero. */
  predicate Changing(cs: seq<int>) {
    (cs != [] ==> cs[0] != 0) && forall i :: 0 < i < |cs| ==> cs[i] != cs[i - 1]
  }

  lemma AnnouncedOne(ns: seq<Notice>, n: Notice, t: WallpaperType)
    ensures Colors(ns + [n], t) == Colors(ns, t) + if n.wallpaperType == t then [n.color] else []
  {
    assert (ns + [n])[..|ns|] == ns;
  }

  ghost predicate Traced(b: Board) {
    forall t :: Changing(Colors(b.announced, t)) && ColorOf(b, t) == LastOr(Colors(b.announced, t), 0)
  }

  lemma ApplyKeepsTrace(b: Board, q: Request)
    requires Traced(b)
    ensures Traced(Apply(b, q))
  {
    var c := Apply(b, q);
    if q.Picked? && ColorOf(b, q.wallpaperType) != q.color {
      forall t ensures Changing(Colors(c.announced, t)) && ColorOf(c, t) == LastOr(Colors(c.announced, t), 0) {
        assert Changing(Colors(b.announced, t)) && ColorOf(b, t) == LastOr(Colors(b.announced, t), 0);
        AnnouncedOne(b.announced, Notice(q.color, q.wallpaperType), t);
      }
    }
  }

  /** After start-up and any requests: for each screen the announced colours form a sequence in which
      each differs from the one before it, the first from zero, and the colour held is the last of them. */
  lemma {:induction false} ColorTrace(qs: seq<Request>)
    ensures Traced(After(Fresh(), qs))
  {
    if qs != [] {
      ColorTrace(qs[..|qs| - 1]);
      ApplyKeepsTrace(After(Fresh(), qs[..|qs| - 1]), qs[|qs| - 1]);
    }
  }

  // ----- who is registered -----

  ghost predicate Registers(r: Registry, event: string, k: Token, l: Listener) {
    event in r && k in r[event] && r[event][k] == l
  }

  /** Registering puts the caller's listener in the place of its former one for that event, unregistering takes
      it away, and neither touches another process or another event. The null listener is refused, and an
      ordinary application is refused wallpaper changes. */
  lemma RegistersExactly(b: Board, event: string, k: Token, l: Listener, systemApp: bool, other: string, j: Token,
                         m: Listener)
    ensures var refused := event == "wallpaperChange" && !systemApp;
            Registers(Apply(b, On(event, k, l, systemApp)).registry, other, j, m) <==>
            if other == event && j == k && l != Null && !refused then m == l else Registers(b.registry, other, j, m)
    ensures var refused := event == "wallpaperChange" && !systemApp;
            Registers(Apply(b, Off(event, k, systemApp)).registry, other, j, m) <==>
            Registers(b.registry, other, j, m) && (other == event && j == k ==> refused)
  {
  }

  /** Only a colour that differs from the one held is announced; it is held from then on, and the other screen
      keeps its own. Registering and unregistering leave colours alone and send nothing. */
  lemma PickedIsHeld(b: Board, t: WallpaperType, color: int, k: WallpaperType, q: Request)
    ensures var a := Apply(b, Picked(t, color));
            && ColorOf(a, k) == (if k == t then color else ColorOf(b, k))
            && a.announced == b.announced + (if ColorOf(b, t) == color then [] else [Notice(color, t)])
            && a.registry == b.registry
    ensures !q.Picked? ==> Apply(b, q) == b.(registry := Apply(b, q).registry)
    ensures Fresh().announced == [] && ColorOf(Fresh(), k) == 0
  {
    if t == k { assert ColorOf(Apply(b, Picked(t, color)), k) == color; }
  }

  /** A change of colour is sent, once, to every process with a live listener for colours and to no other. */
  lemma SentExactly(b: Board, t: WallpaperType, color: int, k: Token)
    ensures SentTo(Apply(b, Picked(t, color)).sent, k) ==
            if ColorOf(b, t) != color && exists l :: l != Null && Registers(b.registry, "colorChange", k, l) then
              SentTo(b.sent, k) + [Notice(color, t)]
            else
              SentTo(b.sent, k)
  {
    if k in Receivers(b.registry) {
      assert Registers(b.registry, "colorChange", k, Registered(b.registry, COLOR_CHANGE)[k]);
    }
  }

  // ----- what a listener hears -----

  predicate Listening(b: Board, k: Token) {
    k in Receivers(b.registry)
  }

  predicate Leaves(q: Request, k: Token) {
    q.Off? && q.event == "colorChange" && q.token == k
  }

  lemma OnListens(b: Board, k: Token, l: Listener, systemApp: bool)
    requires l != Null
    ensures Listening(Apply(b, On("colorChange", k, l, systemApp)), k)
    ensures Apply(b, On("colorChange", k, l, systemApp)).sent == b.sent
    ensures Apply(b, On("colorChange", k, l, systemApp)).announced == b.announced
  {
  }

  lemma ApplyKeepsListening(b: Board, q: Request, k: Token)
    requires Listening(b, k) && !Leaves(q, k)
    ensures Listening(Apply(b, q), k)
  {
  }

  lemma PickedIsHeard(b: Board, q: Request, k: Token)
    requires Listening(b, k)
    ensures var news := if q.Picked? && ColorOf(b, q.wallpaperType) != q.color then [Notice(q.color, q.wallpaperType)]
                        else [];
            Apply(b, q).announced == b.announced + news && SentTo(Apply(b, q).sent, k) == SentTo(b.sent, k) + news
  {
  }

  lemma {:induction false} ListeningHears(b: Board, qs: seq<Request>, k: Token) returns (news: seq<Notice>)
    requires Listening(b, k) && forall i :: 0 <= i < |qs| ==> !Leaves(qs[i], k)
    ensures Listening(After(b, qs), k)
    ensures After(b, qs).announced == b.announced + news
    ensures SentTo(After(b, qs).sent, k) == SentTo(b.sent, k) + news
  {
    if qs == [] {
      news := [];
    } else {
      var n := |qs| - 1;
      var m, q := After(b, qs[..n]), qs[n];
      var before := ListeningHears(b, qs[..n], k);
      ApplyKeepsListening(m, q, k);
      PickedIsHeard(m, q, k);
      hide Apply, Deliver, SentTo, Receivers;
      news := if q.Picked? && ColorOf(m, q.wallpaperType) != q.color then before + [Notice(q.color, q.wallpaperType)]
              else before;
    }
  }

  /** From the registration of a listener for colours to the next time its process unregisters, the process is
      sent exactly the colours announced meanwhile, in order: so the next change reaches it, whichever
      screen it is for. */
  lemma ListenerHearsAll(b: Board, k: Token, l: Listener, systemApp: bool, qs: seq<Request>, t: WallpaperType,
                         color: int)
    returns (news: seq<Notice>)
    requires l != Null && forall i :: 0 <= i < |qs| ==> !Leaves(qs[i], k)
    ensures var a := After(Apply(b, On("colorChange", k, l, systemApp)), qs);
            && a.announced == b.announced + news
            && SentTo(a.sent, k) == SentTo(b.sent, k) + news
            && SentTo(Apply(a, Picked(t, color)).sent, k) ==
               SentTo(b.sent, k) + news + if ColorOf(a, t) == color then [] else [Notice(color, t)]
  {
    var start := Apply(b, On("colorChange", k, l, systemApp));
    OnListens(b, k, l, systemApp);
    news := ListeningHears(start, qs, k);
  }

  /** Whoever unregisters for colours is sent nothing more until it registers again. */
  lemma {:induction false} SilentAfterOff(b: Board, k: Token, systemApp: bool, qs: seq<Request>)
    requires forall i :: 0 <= i < |qs| ==> !(qs[i].On? && qs[i].event == "colorChange" && qs[i].token == k)
    ensures var a := Apply(b, Off("colorChange", k, systemApp));
            !Listening(After(a, qs), k) && SentTo(After(a, qs).sent, k) == SentTo(b.sent, k)
  {
    if qs != [] {
      var n := |qs| - 1;
      SilentAfterOff(b, k, systemApp, qs[..n]);
      var m, q := After(Apply(b, Off("colorChange", k, systemApp)), qs[..n]), qs[n];
      assert Apply(m, q).sent == m.sent || k !in Receivers(m.registry);
    }
  }

  /** A process that never registers for colours is sent nothing. */
  lemma {:induction false} OthersHearNothing(qs: seq<Request>, k: Token)
    requires forall i :: 0 <= i < |qs| ==> !(qs[i].On? && qs[i].event == "colorChange" && qs[i].token == k)
    ensures !Listening(After(Fresh(), qs), k) && SentTo(After(Fresh(), qs).sent, k) == []
  {
    if qs != [] {
      var n := |qs| - 1;
      OthersHearNothing(qs[..n], k);
      var m, q := After(Fresh(), qs[..n]), qs[n];
      assert Apply(m, q).sent == m.sent || k !in Receivers(m.registry);
    }
  }

  class WallpaperColors {
    var systemWallpaperColor: int
    var lockWallpaperColor: int
    var wallpaperEventMap: Registry
    /** The announcements made, and what was sent to whom. */
    ghost var announced: seq<Notice>
    ghost var sent: map<Token, seq<Notice>>

    ghost function Snap(): Board
      reads this
    {
      Board(systemWallpaperColor, lockWallpaperColor, wallpaperEventMap, announced, sent)
    }

    /** The colour part of InitData. */
    constructor ()
      ensures Snap() == Fresh()
    {
      systemWallpaperColor, lockWallpaperColor := 0, 0;
      wallpaperEventMap := map[];
      announced, sent := [], map[];
    }

    method GetColors(wallpaperType: int) returns (colors: seq<int>)
      ensures colors == if wallpaperType == 0 then [ColorOf(Snap(), System)]
                        else if wallpaperType == 1 then [ColorOf(Snap(), Lockscreen)] else []
    {
      colors := [];
      if wallpaperType == 0 {
        colors := colors + [systemWallpaperColor];
      } else if wallpaperType == 1 {
        colors := colors + [lockWallpaperColor];
      }
    }

    method NotifyColorChange(n: Notice)
      modifies this`sent
      ensures sent == Deliver(old(sent), Receivers(wallpaperEventMap), n)
    {
      hide Deliver, SentTo;
      ghost var to := Receivers(wallpaperEventMap);
      ghost var told: set<Token> := {};
      DeliverNone(sent, n);
      if COLOR_CHANGE in wallpaperEventMap {
        var listeners := wallpaperEventMap[COLOR_CHANGE];
        var pending := listeners.Keys;
        while pending != {}
          invariant pending <= listeners.Keys
          invariant told == set k | k in listeners && k !in pending && listeners[k] != Null
          invariant sent == Deliver(old(sent), told, n)
          decreases |pending|
        {
          var k :| k in pending;
          pending := pending - {k};
          if listeners[k] != Null {
            DeliverOne(old(sent), told, k, n);
            told := told + {k};
            sent := sent[k := SentTo(sent, k) + [n]];
          }
        }
      }
      assert told == to;
    }

    method OnColorsChange(t: WallpaperType, color: int)
      modifies this
      ensures Snap() == Apply(old(Snap()), Picked(t, color))
    {
      if t.System? && systemWallpaperColor != color {
        systemWallpaperColor := color;
        announced := announced + [Notice(color, System)];
        NotifyColorChange(Notice(color, System));
      } else if t.Lockscreen? && lockWallpaperColor != color {
        lockWallpaperColor := color;
        announced := announced + [Notice(color, Lockscreen)];
        NotifyColorChange(Notice(color, Lockscreen));
      }
    }

    method On(event: string, token: Token, listener: Listener, systemApp: bool) returns (answer: Answer)
      modifies this
      ensures Snap() == Apply(old(Snap()), Request.On(event, token, listener, systemApp))
      ensures answer == if listener == Null then DEAL_FAILED
                        else if event == WALLPAPER_CHANGE && !systemApp then NOT_SYSTEM_APP else OK
    {
      if listener == Null {
        return DEAL_FAILED;
      }
      if event == WALLPAPER_CHANGE && !systemApp {
        return NOT_SYSTEM_APP;
      }
      var listeners := if event in wallpaperEventMap then wallpaperEventMap[event] else map[];
      wallpaperEventMap := wallpaperEventMap[event := listeners[token := listener]];
      return OK;
    }

    method Off(event: string, token: Token, systemApp: bool) returns (answer: Answer)
      modifies this
      ensures Snap() == Apply(old(Snap()), Request.Off(event, token, systemApp))
      ensures answer == if event == WALLPAPER_CHANGE && !systemApp then NOT_SYSTEM_APP else OK
    {
      if event == WALLPAPER_CHANGE && !systemApp {
        return NOT_SYSTEM_APP;
      }
      if event in wallpaperEventMap {
        var listeners := wallpaperEventMap[event];
        if token in listeners {
          wallpaperEventMap := wallpaperEventMap[event := listeners - {token}];
        } else {
          assert listeners - {token} == listeners;
          assert wallpaperEventMap[event := listeners] == wallpaperEventMap;
        }
      }
      return OK;
    }
  }
}
