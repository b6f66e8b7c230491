/** The client library: the descriptors it owns, and the listeners it registers again when the service restarts. */
module ClientManager {
  import opened ClientDescriptors
  import opened ClientReplay
  import opened ColorBoard

  /** The descriptor table of the process. */
  class Kernel {
    var open: map<Fd, Opening>
    var issued: nat

    constructor ()
      ensures open == map[] && issued == 0
    {
      open, issued := map[], 0;
    }

    /** fcntl(F_GETFL) succeeds. */
    predicate IsOpen(f: Fd)
      reads this
    {
      f in open
    }

    method Close(f: Fd)
      modifies this
      ensures open == old(open) - {f} && issued == old(issued)
    {
      open := open - {f};
    }

    method Open(f: Fd)
      requires f !in open
      modifies this
      ensures open == old(open)[f := Opening(old(issued))] && issued == old(issued) + 1
    {
      open := open[f := Opening(issued)];
      issued := issued + 1;
    }
  }

  class WallpaperManager {
    const kernel: Kernel
    /** The calling process, and whether the service takes it for a system application. */
    const token: Token
    const systemApp: bool
    var wallpaperProxy: WallpaperColors?
    var wallpaperFdMap: map<Kind, Fd>
    var listenerMap: Listeners
    ghost var obtained: set<Opening>
    ghost var closed: multiset<Opening>

    ghost function Snap(): Desk
      reads this, kernel
    {
      Desk(wallpaperFdMap, kernel.open, kernel.issued, obtained, closed)
    }

    constructor (kernel: Kernel, token: Token, systemApp: bool)
      ensures this.kernel == kernel && this.token == token && this.systemApp == systemApp
      ensures wallpaperProxy == null && listenerMap == map[]
      ensures Snap() == Started(kernel.open, kernel.issued)
    {
      this.kernel, this.token, this.systemApp := kernel, token, systemApp;
      wallpaperProxy, wallpaperFdMap, listenerMap := null, map[], map[];
      obtained, closed := {}, multiset{};
    }

    /** The destructor closes every number held. */
    method Destroy()
      requires TableOk(Snap())
      modifies kernel, this`closed
      ensures Snap() == Destroyed(old(Snap()))
    {
      ghost var open, before := kernel.open, closed;
      ghost var done: set<Fd> := {};
      var pending := wallpaperFdMap.Keys;
      assert open - done == open;
      while pending != {}
        invariant pending <= wallpaperFdMap.Keys
        invariant done == set k | k in wallpaperFdMap && k !in pending :: wallpaperFdMap[k]
        invariant kernel.open == open - done && kernel.issued == old(kernel.issued)
        invariant closed == before + multiset(Behind(open, done))
        decreases |pending|
      {
        var k :| k in pending;
        var f := wallpaperFdMap[k];
        if f in kernel.open {
          closed := closed + multiset{kernel.open[f]};
        }
        OneMoreClosed(open, done, f);
        kernel.Close(f);
        OneMoreDone(wallpaperFdMap, pending, k);
        pending := pending - {k};
        done := done + {f};
      }
      assert done == wallpaperFdMap.Values;
    }

    method CloseWallpaperFd(k: Kind)
      modifies this`wallpaperFdMap, this`closed, kernel
      ensures Snap() == Released(old(Snap()), k)
    {
      if k in wallpaperFdMap && kernel.IsOpen(wallpaperFdMap[k]) {
        var f := wallpaperFdMap[k];
        closed := closed + multiset{kernel.open[f]};
        kernel.Close(f);
        wallpaperFdMap := wallpaperFdMap - {k};
      }
    }

    /** The proxy is kept once it is found. */
    method GetService(found: WallpaperColors?) returns (service: WallpaperColors?)
      modifies this`wallpaperProxy
      ensures service == wallpaperProxy
      ensures service == if old(wallpaperProxy) != null then old(wallpaperProxy) else found
    {
      if wallpaperProxy == null {
        wallpaperProxy := found;
      }
      return wallpaperProxy;
    }

    method GetFile(k: Kind, found: WallpaperColors?, reply: Reply) returns (code: Code)
      requires Possible(Snap(), Fetch(k, reply))
      modifies this, kernel
      ensures wallpaperProxy == if old(wallpaperProxy) != null then old(wallpaperProxy) else found
      ensures listenerMap == old(listenerMap)
      ensures wallpaperProxy == null ==> code == E_DEAL_FAILED && Snap() == old(Snap())
      ensures wallpaperProxy != null ==> code == reply.code && Snap() == Fetched(old(Snap()), k, reply)
    {
      var service := GetService(found);
      if service == null {
        return E_DEAL_FAILED;
      }
      CloseWallpaperFd(k);
      Serve(reply);
      if reply.code == E_OK && reply.fd != NONE && k !in wallpaperFdMap {
        wallpaperFdMap := wallpaperFdMap[k := reply.fd];
      }
      return reply.code;
    }

    /** The service's GetFile: a failing call opens nothing. */
    method Serve(reply: Reply)
      requires Gives(reply) ==> reply.fd !in kernel.open
      modifies this`obtained, kernel
      ensures !Gives(reply) ==>
                obtained == old(obtained) && kernel.open == old(kernel.open) && kernel.issued == old(kernel.issued)
      ensures Gives(reply) ==>
                && obtained == old(obtained) + {Opening(old(kernel.issued))}
                && kernel.open == old(kernel.open)[reply.fd := Opening(old(kernel.issued))]
                && kernel.issued == old(kernel.issued) + 1
    {
      if Gives(reply) {
        obtained := obtained + {Opening(kernel.issued)};
        kernel.Open(reply.fd);
      }
    }

    /** One call of the service's On. */
    method CallOn(service: WallpaperColors, event: string, listener: Listener, delivery: Delivery) returns (code: Code)
      requires listener != Null
      modifies service
      ensures code == E_OK <==> delivery == Delivered && Accepts(event, systemApp)
      ensures service.Snap() == Called(old(service.Snap()), Request.On(event, token, listener, systemApp), delivery)
    {
      if delivery == Dropped {
        return E_DEAD_OBJECT;
      }
      var answer := service.On(event, token, listener, systemApp);
      if delivery == ReplyLost {
        return E_DEAD_OBJECT;
      }
      return if answer == OK then E_OK else E_REFUSED;
    }

    /** The service that the next call reaches. */
    ghost function Target(found: WallpaperColors?): WallpaperColors?
      reads this
    {
      if wallpaperProxy != null then wallpaperProxy else found
    }

    /** The listener is remembered before the service is asked, whatever the service answers. */
    method On(event: string, listener: Listener, found: WallpaperColors?, delivery: Delivery) returns (code: Code)
      modifies this`wallpaperProxy, this`listenerMap, Target(found)
      ensures wallpaperProxy == old(Target(found))
      ensures wallpaperProxy == null ==> code == E_SA_DIED && listenerMap == old(listenerMap)
      ensures wallpaperProxy != null && listener == Null ==>
                code == E_DEAL_FAILED && listenerMap == old(listenerMap) && unchanged(wallpaperProxy)
      ensures wallpaperProxy != null && listener != Null ==>
                && listenerMap == old(listenerMap)[event := listener]
                && (code == E_OK <==> delivery == Delivered && Accepts(event, systemApp))
                && wallpaperProxy.Snap() ==
                   Called(old(Target(found).Snap()), Request.On(event, token, listener, systemApp), delivery)
    {
      var service := GetService(found);
      if service == null {
        return E_SA_DIED;
      }
      if listener == Null {
        return E_DEAL_FAILED;
      }
      listenerMap := listenerMap[event := listener];
      code := CallOn(service, event, listener, delivery);
    }

    /** The service forgets the listener, the client does not. */
    method Off(event: string, found: WallpaperColors?, delivery: Delivery) returns (code: Code)
      modifies this`wallpaperProxy, Target(found)
      ensures wallpaperProxy == old(Target(found)) && listenerMap == old(listenerMap)
      ensures wallpaperProxy == null ==> code == E_SA_DIED
      ensures wallpaperProxy != null ==>
                && (code == E_OK <==> delivery == Delivered && Accepts(event, systemApp))
                && wallpaperProxy.Snap() ==
                   Called(old(Target(found).Snap()), Request.Off(event, token, systemApp), delivery)
    {
      var service := GetService(found);
      if service == null {
        return E_SA_DIED;
      }
      if delivery == Dropped {
        return E_DEAD_OBJECT;
      }
      var answer := service.Off(event, token, systemApp);
      if delivery == ReplyLost {
        return E_DEAD_OBJECT;
      }
      return if answer == OK then E_OK else E_REFUSED;
    }

    ghost predicate Remembers()
      reads this
    {
      forall e :: e in listenerMap ==> listenerMap[e] != Null
    }

    /** One pass over the remembered listeners stops at the first one the service does not take. */
    method RegisterAll(service: WallpaperColors, delivery: string -> Delivery) returns (ok: bool, ghost done: Listeners)
      requires Remembers()
      modifies service
      ensures ok <==> AllDelivered(listenerMap, delivery, systemApp)
      ensures done == Attempted(listenerMap, delivery, systemApp) && (ok ==> done == listenerMap)
      ensures service.Snap() == Overlaid(old(service.Snap()), token, done)
    {
      hide Overlaid, Called, Attempted, Visited, AllDelivered;
      done := map[];
      VisitedNone(listenerMap, delivery, systemApp);
      OverlaidNothing(service.Snap(), token);
      var pending := listenerMap.Keys;
      while pending != {}
        invariant pending <= listenerMap.Keys
        invariant done.Keys == listenerMap.Keys - pending && Within(done, listenerMap)
        invariant Visited(listenerMap, pending, delivery, systemApp)
        invariant service.Snap() == Overlaid(old(service.Snap()), token, done)
        decreases |pending|
      {
        ghost var least := LeastExists(pending);
        var e :| e in pending && forall f :: f in pending && f != e ==> Before(e, f);
        assert IsLeast(pending, e);
        OneCall(old(service.Snap()), token, done, e, listenerMap[e], delivery(e), systemApp);
        var code := CallOn(service, e, listenerMap[e], delivery(e));
        if code != E_OK {
          PassStops(listenerMap, pending, done, e, delivery, systemApp);
          return false, Added(done, e, listenerMap[e], delivery(e), systemApp);
        }
        VisitedOneMore(listenerMap, pending, e, delivery, systemApp);
        pending := pending - {e};
        done := done[e := listenerMap[e]];
      }
      VisitedAll(listenerMap, done, delivery, systemApp);
      return true, done;
    }

    method RegisterWallpaperListener(found: WallpaperColors?, delivery: string -> Delivery)
      returns (ok: bool, ghost done: Listeners)
      requires Remembers()
      modifies this`wallpaperProxy, Target(found)
      ensures wallpaperProxy == old(Target(found))
      ensures ok <==> wallpaperProxy != null && AllDelivered(listenerMap, delivery, systemApp)
      ensures done == (if wallpaperProxy == null then map[] else Attempted(listenerMap, delivery, systemApp))
      ensures ok ==> done == listenerMap
      ensures wallpaperProxy != null ==> wallpaperProxy.Snap() == Overlaid(old(Target(found).Snap()), token, done)
    {
      hide Overlaid, AllDelivered, Attempted;
      var service := GetService(found);
      if service == null {
        return false, map[];
      }
      ok, done := RegisterAll(service, delivery);
    }

    method ResetService(remote: WallpaperColors)
      modifies this`wallpaperProxy
      ensures wallpaperProxy == if old(wallpaperProxy) == remote then null else old(wallpaperProxy)
    {
      if wallpaperProxy != null && wallpaperProxy == remote {
        wallpaperProxy := null;
      }
    }

    /** After the service dies: passes until one succeeds, at most ten. */
    method OnRemoteDied(remote: WallpaperColors, restarted: WallpaperColors, passes: nat -> Pass)
      returns (times: nat, result: bool, ghost done: Listeners)
      requires Remembers()
      modifies this`wallpaperProxy, restarted, wallpaperProxy
      ensures 1 <= times <= 10
      ensures var connected := old(wallpaperProxy) != null && old(wallpaperProxy) != remote;
              && result == PassSucceeds(listenerMap, systemApp, connected, passes, times - 1)
              && (forall i :: 0 <= i < times - 1 ==> !PassSucceeds(listenerMap, systemApp, connected, passes, i))
      ensures !result ==> times == 10
      ensures var connected := old(wallpaperProxy) != null && old(wallpaperProxy) != remote;
              done == Attempts(listenerMap, systemApp, connected, passes, times) && (result ==> done == listenerMap)
      ensures var service := if old(wallpaperProxy) != null && old(wallpaperProxy) != remote then old(wallpaperProxy)
                             else restarted;
              && (result ==> wallpaperProxy == service)
              && service.Snap() == Overlaid(old(service.Snap()), token, done)
    {
      hide Overlaid, AllDelivered, PassSucceeds, Within, Attempted, Attempts;
      ghost var connected := wallpaperProxy != null && wallpaperProxy != remote;
      ghost var service := if connected then wallpaperProxy else restarted;
      ghost var b := service.Snap();
      ResetService(remote);
      times, result, done := 0, false, map[];
      NothingWithin(listenerMap);
      OverlaidNothing(b, token);
      AttemptsStep(listenerMap, systemApp, connected, passes, 0);
      while true
        invariant 0 <= times < MAX_RETRY_TIMES && !result
        invariant wallpaperProxy == null || wallpaperProxy == service
        invariant wallpaperProxy == service <==> connected || exists j :: 0 <= j < times && passes(j).found
        invariant forall i :: 0 <= i < times ==> !PassSucceeds(listenerMap, systemApp, connected, passes, i)
        invariant done == Attempts(listenerMap, systemApp, connected, passes, times) && Within(done, listenerMap)
        invariant service.Snap() == Overlaid(b, token, done)
        decreases MAX_RETRY_TIMES - times
      {
        var p := passes(times);
        ghost var more;
        result, more := RegisterWallpaperListener(if p.found then restarted else null, p.delivery);
        PassMeans(listenerMap, systemApp, connected, passes, times);
        AttemptsStep(listenerMap, systemApp, connected, passes, times);
        times := times + 1;
        if wallpaperProxy != null {
          OverlaidTwice(b, token, done, more);
          AttemptedWithin(listenerMap, p.delivery, systemApp);
          WithinBoth(done, more, listenerMap);
          done := done + more;
        }
        if result || times >= MAX_RETRY_TIMES {
          break;
        }
      }
    }
  }
}
