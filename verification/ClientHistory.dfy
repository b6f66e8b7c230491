/** What a client remembers and what the living service has registered for it, over whole histories of calls. */
module ClientHistory {
  import opened ClientReplay
  import opened ColorBoard

  datatype Call = Subscribe(event: string, listener: Listener) | Unsubscribe(event: string)

  function AsRequest(c: Call, k: Token, systemApp: bool): Request {
    match c
    case Subscribe(e, l) => Request.On(e, k, l, systemApp)
    case Unsubscribe(e) => Request.Off(e, k, systemApp)
  }

  /** The client's listener map after these calls: unsubscribing leaves it alone, and so does a refusal. */
  function Remembered(cs: seq<Call>): Listeners {
    if cs == [] then map[]
    else
      var c, ls := cs[|cs| - 1], Remembered(cs[..|cs| - 1]);
      if c.Subscribe? && c.listener != Null then ls[c.event := c.listener] else ls
  }

  /** The service after these calls, all of them delivered. */
  function Served(b: Board, k: Token, systemApp: bool, cs: seq<Call>): Board {
    if cs == [] then b
    else Apply(Served(b, k, systemApp, cs[..|cs| - 1]), AsRequest(cs[|cs| - 1], k, systemApp))
  }

  function Live(k: Token, systemApp: bool, cs: seq<Call>): Listeners {
    Registrations(Served(Fresh(), k, systemApp, cs).registry, k)
  }

  /** The last call about an event is an accepted subscription. */
  predicate Standing(cs: seq<Call>, e: string, systemApp: bool) {
    cs != [] &&
    var c := cs[|cs| - 1];
    if c.event == e && (c.Unsubscribe? || c.listener != Null) then c.Subscribe? && Accepts(e, systemApp)
    else Standing(cs[..|cs| - 1], e, systemApp)
  }

  lemma CallRegisters(b: Board, k: Token, systemApp: bool, c: Call)
    ensures var before := Registrations(b.registry, k);
            var after := Registrations(Apply(b, AsRequest(c, k, systemApp)).registry, k);
            && (forall e :: e != c.event ==> (e in after <==> e in before) && (e in before ==> after[e] == before[e]))
            && (c.event in after <==>
                  if !Accepts(c.event, systemApp) || (c.Subscribe? && c.listener == Null) then c.event in before
                  else c.Subscribe?)
            && (c.event in after ==>
                  after[c.event] ==
                  if c.Subscribe? && c.listener != Null && Accepts(c.event, systemApp) then c.listener
                  else before[c.event])
  {
  }

  /** The service never has the refused event registered for an ordinary application, and what it has
      registered is what the client remembers for every event whose subscription stands. */
  lemma {:induction false} LiveIsStanding(k: Token, systemApp: bool, cs: seq<Call>)
    ensures var live := Live(k, systemApp, cs);
            && (forall e :: e in live <==> Standing(cs, e, systemApp))
            && (forall e :: e in live ==> e in Remembered(cs) && live[e] == Remembered(cs)[e] && Accepts(e, systemApp))
  {
    if cs != [] {
      var n := |cs| - 1;
      LiveIsStanding(k, systemApp, cs[..n]);
      CallRegisters(Served(Fresh(), k, systemApp, cs[..n]), k, systemApp, cs[n]);
    }
  }

  /** Replaying into a restarted service brings back exactly what the one that died had registered for the
      client if and only if, for every event ever subscribed to, the last call about it is an accepted
      subscription: an unsubscription in between is undone by the restart. */
  lemma ReplayBringsBackExactly(k: Token, systemApp: bool, cs: seq<Call>)
    ensures Registrations(Overlay(map[], k, Remembered(cs)), k) == Live(k, systemApp, cs)
            <==> forall e :: e in Remembered(cs) ==> Standing(cs, e, systemApp)
  {
    ReplayRestoresExactly(map[], k, Remembered(cs));
    LiveIsStanding(k, systemApp, cs);
    hide Live;
    var live := Live(k, systemApp, cs);
    if forall e :: e in Remembered(cs) ==> Standing(cs, e, systemApp) {
      assert live.Keys == Remembered(cs).Keys;
    }
  }

  lemma {:induction false} RememberedWasAsked(cs: seq<Call>, e: string)
    ensures e in Remembered(cs) <==>
              exists i :: 0 <= i < |cs| && cs[i].Subscribe? && cs[i].event == e && cs[i].listener != Null
  {
    if cs != [] {
      var n := |cs| - 1;
      RememberedWasAsked(cs[..n], e);
      if e in Remembered(cs[..n]) {
        var i :| 0 <= i < n && cs[..n][i].Subscribe? && cs[..n][i].event == e && cs[..n][i].listener != Null;
        assert cs[i] == cs[..n][i];
      }
    }
  }

  /** When every call is delivered, a pass of the replay succeeds if and only if no ordinary application
      ever tried to subscribe to wallpaper changes: that one refusal makes every later replay fail. */
  lemma OneRefusalBlocksReplay(systemApp: bool, cs: seq<Call>, delivery: string -> Delivery)
    requires forall e :: delivery(e) == Delivered
    ensures AllDelivered(Remembered(cs), delivery, systemApp) <==>
            systemApp || forall i :: 0 <= i < |cs| && cs[i].Subscribe? && cs[i].listener != Null ==>
              cs[i].event != "wallpaperChange"
  {
    RememberedWasAsked(cs, WALLPAPER_CHANGE);
  }
}
