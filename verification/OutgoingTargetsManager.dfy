// The manager object of sharing/outgoing_targets_manager.cc: the three maps as fields, updated in place.
// Every method is proved against the functions of OutgoingTargets.
module OutgoingTargetsManagers {
  import opened Wrappers
  import opened OutgoingTargets

  // An enumeration of a set: every element once, in some order.
  ghost predicate Enumerates(order: seq<EndpointId>, xs: set<EndpointId>) {
    (forall x :: x in order <==> x in xs) && |order| == |xs|
  }

  lemma SessionsHaveEndpoints(s: Targets)
    requires Bijection(s)
    ensures s.sessions.Keys == {} || s.ids.Keys != {}
  {
    EmptyOrInhabited(s.sessions.Keys);
    if id :| id in s.sessions.Keys {
      assert s.sessions[id].endpoint in s.ids.Keys;
    }
  }

  lemma EnumeratesPush(order: seq<EndpointId>, xs: set<EndpointId>, x: EndpointId)
    requires Enumerates(order, xs) && x !in xs
    ensures Enumerates(order + [x], xs + {x})
  {
  }

  lemma LoseAllPush(s: Targets, order: seq<EndpointId>, e: EndpointId)
    ensures LoseAll(s, order + [e]).0 == Lose(LoseAll(s, order).0, e).0
    ensures LoseAll(s, order + [e]).1 == LoseAll(s, order).1 + Lose(LoseAll(s, order).0, e).1
  {
    assert (order + [e])[..|order|] == order;
  }

  // The targets of exactly these sessions, each once.
  ghost predicate ShowsExactly(shown: seq<ShareTarget>, ids: set<int>, sessions: map<int, Session>) {
    && |shown| == |ids|
    && forall t :: t in shown <==> t.id in ids && t.id in sessions && sessions[t.id].target == t
  }

  lemma ShowsPush(shown: seq<ShareTarget>, ids: set<int>, sessions: map<int, Session>, id: int)
    requires ShowsExactly(shown, ids, sessions) && id !in ids && id in sessions && sessions[id].target.id == id
    ensures ShowsExactly(shown + [sessions[id].target], ids + {id}, sessions)
  {
    var more := shown + [sessions[id].target];
    forall t ensures t in more <==> t.id in ids + {id} && t.id in sessions && sessions[t.id].target == t {
      assert t in more <==> t in shown || t == sessions[id].target;
    }
  }

  // Where AllTargetsLost has got to after losing the endpoints in `order`.
  ghost predicate Reached(s: Targets, events: seq<Event>, s0: Targets, events0: seq<Event>, order: seq<EndpointId>) {
    s == LoseAll(s0, order).0 && events == events0 + LoseAll(s0, order).1
  }

  lemma ReachedPush(s: Targets, events: seq<Event>, s0: Targets, events0: seq<Event>, order: seq<EndpointId>,
                    e: EndpointId)
    requires Reached(s, events, s0, events0, order)
    ensures Reached(Lose(s, e).0, events + Lose(s, e).1, s0, events0, order + [e])
  {
    LoseAllPush(s0, order, e);
    assert events0 + (LoseAll(s0, order).1 + Lose(s, e).1) == events + Lose(s, e).1;
  }

  class OutgoingTargetsManager {
    var outgoingTargetIdMap: map<EndpointId, int>
    var outgoingShareSessionMap: map<int, Session>
    var discoveryCache: map<EndpointId, ShareTarget>
    // The callbacks invoked so far.
    var events: seq<Event>

    ghost function State(): Targets
      reads this
    {
      Targets(outgoingTargetIdMap, outgoingShareSessionMap, discoveryCache)
    }

    constructor ()
      ensures State() == EMPTY && events == []
    {
      outgoingTargetIdMap, outgoingShareSessionMap, discoveryCache, events := map[], map[], map[], [];
    }

    method OnShareTargetDiscovered(t: ShareTarget, endpoint: EndpointId, certificate: Option<string>)
      returns (ghost live: Option<int>, ghost cached: Option<EndpointId>)
      modifies this
      ensures IsChoice(live, LiveMatches(old(State()), endpoint, t))
      ensures live.None? ==> IsChoice(cached, CacheMatches(old(State()), endpoint, t))
      ensures var (s', e) := Discover(old(State()), t, endpoint, certificate, live, cached);
              State() == s' && events == old(events) + [e]
    {
      cached := None;
      var found := FindExistingTargetId(endpoint, t);
      live := found;
      if found.Some? {
        var target := t.(id := found.value);
        if target.id in outgoingShareSessionMap {
          var session := outgoingShareSessionMap[target.id];
          var oldEndpoint := session.endpoint;
          if session.connected {
            outgoingShareSessionMap := outgoingShareSessionMap[target.id := session.(target := target)];
          } else {
            outgoingShareSessionMap := outgoingShareSessionMap[
              target.id := session.(target := target, endpoint := endpoint, certificate := certificate)];
            if oldEndpoint != endpoint {
              outgoingTargetIdMap := outgoingTargetIdMap - {oldEndpoint};
              outgoingTargetIdMap := outgoingTargetIdMap[endpoint := target.id];
            }
          }
        }
        events := events + [Updated(target)];
        return;
      }
      var target := t;
      var cachedId: Option<int>;
      cachedId, cached := FindInDiscoveryCache(endpoint, t);
      if cachedId.Some? {
        target := t.(id := cachedId.value);
      }
      AddTarget(target, endpoint, certificate);
      events := events + [if cachedId.Some? then Updated(target) else Discovered(target)];
    }

    method FindExistingTargetId(endpoint: EndpointId, t: ShareTarget) returns (found: Option<int>)
      ensures IsChoice(found, LiveMatches(State(), endpoint, t))
    {
      if endpoint in outgoingTargetIdMap {
        return Some(outgoingTargetIdMap[endpoint]);
      }
      if t.deviceId == "" {
        return None;
      }
      if id :| id in outgoingShareSessionMap && outgoingShareSessionMap[id].target.deviceId == t.deviceId {
        found := Some(outgoingShareSessionMap[id].target.id);
      } else {
        found := None;
      }
    }

    method FindInDiscoveryCache(endpoint: EndpointId, t: ShareTarget)
      returns (found: Option<int>, ghost entry: Option<EndpointId>)
      modifies this`discoveryCache
      ensures IsChoice(entry, CacheMatches(old(State()), endpoint, t))
      ensures entry.None? <==> found.None?
      ensures entry.None? ==> discoveryCache == old(discoveryCache)
      ensures entry.Some? ==> found.value == old(discoveryCache)[entry.value].id
      ensures entry.Some? ==> discoveryCache == old(discoveryCache) - {entry.value}
    {
      if endpoint in discoveryCache {
        found, entry := Some(discoveryCache[endpoint].id), Some(endpoint);
        discoveryCache := discoveryCache - {endpoint};
        return;
      }
      if t.deviceId == "" {
        return None, None;
      }
      if e :| e in discoveryCache && discoveryCache[e].deviceId == t.deviceId {
        found, entry := Some(discoveryCache[e].id), Some(e);
        discoveryCache := discoveryCache - {e};
      } else {
        found, entry := None, None;
      }
    }

    method AddTarget(t: ShareTarget, endpoint: EndpointId, certificate: Option<string>)
      modifies this`outgoingTargetIdMap, this`outgoingShareSessionMap
      ensures State() == OutgoingTargets.AddTarget(old(State()), t, endpoint, certificate)
    {
      if endpoint in outgoingTargetIdMap {
        if outgoingTargetIdMap[endpoint] != t.id {
          return;
        }
      } else {
        outgoingTargetIdMap := outgoingTargetIdMap[endpoint := t.id];
      }
      assert outgoingTargetIdMap == old(outgoingTargetIdMap)[endpoint := t.id];
      if t.id in outgoingShareSessionMap {
        if outgoingShareSessionMap[t.id].connected {
          return;
        }
      } else {
        outgoingShareSessionMap := outgoingShareSessionMap[t.id := Session(endpoint, t, None, false)];
      }
      if certificate.Some? {
        outgoingShareSessionMap :=
          outgoingShareSessionMap[t.id := outgoingShareSessionMap[t.id].(certificate := certificate)];
      }
    }

    method RemoveTarget(endpoint: EndpointId, closeConnected: bool) returns (removed: Option<ShareTarget>)
      modifies this`outgoingTargetIdMap, this`outgoingShareSessionMap
      ensures (State(), removed) == OutgoingTargets.RemoveTarget(old(State()), endpoint, closeConnected)
    {
      if endpoint !in outgoingTargetIdMap {
        return None;
      }
      var id := outgoingTargetIdMap[endpoint];
      if id !in outgoingShareSessionMap {
        outgoingTargetIdMap := outgoingTargetIdMap - {endpoint};
        return None;
      }
      if !closeConnected && outgoingShareSessionMap[id].connected {
        return None;
      }
      outgoingTargetIdMap := outgoingTargetIdMap - {endpoint};
      removed := Some(outgoingShareSessionMap[id].target);
      outgoingShareSessionMap := outgoingShareSessionMap - {id};
    }

    method OnShareTargetLost(endpoint: EndpointId)
      modifies this
      ensures State() == Lose(old(State()), endpoint).0
      ensures events == old(events) + Lose(old(State()), endpoint).1
    {
      var removed := RemoveTarget(endpoint, false);
      if removed.None? {
        return;
      }
      var entry := removed.value.(receiveDisabled := true);
      events := events + [Updated(entry)];
      discoveryCache := discoveryCache[endpoint := entry];
    }

    // The expiry timer of a cache entry fires.
    method OnCacheEntryExpired(endpoint: EndpointId)
      modifies this
      ensures State() == Expire(old(State()), endpoint).0
      ensures events == old(events) + Expire(old(State()), endpoint).1
    {
      if endpoint !in discoveryCache {
        return;
      }
      var target := discoveryCache[endpoint];
      discoveryCache := discoveryCache - {endpoint};
      events := events + [Lost(target)];
    }

    // The snapshot of the endpoints, in the map's own order.
    method EndpointIds() returns (endpoints: seq<EndpointId>)
      ensures Enumerates(endpoints, outgoingTargetIdMap.Keys)
    {
      endpoints := [];
      var rest := outgoingTargetIdMap.Keys;
      ghost var all := rest;
      while rest != {}
        invariant rest <= all && Enumerates(endpoints, all - rest)
        decreases |rest|
      {
        var endpoint :| endpoint in rest;
        EnumeratesPush(endpoints, all - rest, endpoint);
        assert all - (rest - {endpoint}) == (all - rest) + {endpoint};
        endpoints, rest := endpoints + [endpoint], rest - {endpoint};
      }
      assert all - rest == all;
    }

    method AllTargetsLost() returns (order: seq<EndpointId>)
      modifies this
      ensures Enumerates(order, old(outgoingTargetIdMap).Keys)
      ensures State() == LoseAll(old(State()), order).0
      ensures events == old(events) + LoseAll(old(State()), order).1
    {
      ghost var s0 := State();
      order := EndpointIds();
      for i := 0 to |order|
        invariant Reached(State(), events, s0, old(events), order[..i])
      {
        ReachedPush(State(), events, s0, old(events), order[..i], order[i]);
        OnShareTargetLost(order[i]);
        assert order[..i + 1] == order[..i] + [order[i]];
      }
      assert order[..|order|] == order;
    }

    method Cleanup()
      requires Inv(State())
      modifies this
      ensures State() == EMPTY && events == old(events)
    {
      var remaining := outgoingTargetIdMap.Keys;
      while remaining != {}
        invariant Inv(State()) && events == old(events)
        invariant remaining == outgoingTargetIdMap.Keys
        decreases |remaining|
      {
        var endpoint :| endpoint in remaining;
        var _ := RemoveTarget(endpoint, true);
        remaining := remaining - {endpoint};
      }
      discoveryCache := map[];
      SessionsHaveEndpoints(State());
      assert outgoingShareSessionMap == map[] && outgoingTargetIdMap == map[];
    }

    // The targets handed to the callback, the cached ones first.
    method ForEachShareTarget() returns (shown: seq<ShareTarget>)
      requires Inv(State())
      ensures |shown| == |discoveryCache| + |outgoingShareSessionMap|
      ensures forall t :: t in shown <==> Lists(State(), t)
      ensures forall i :: 0 <= i < |shown| ==> (shown[i].receiveDisabled <==> i < |discoveryCache|)
    {
      var cached := ShowCached();
      var live := ShowLive();
      shown := cached + live;
      assert forall t :: t in shown <==> t in cached || t in live;
      assert forall i :: 0 <= i < |shown| ==> if i < |cached| then shown[i] in cached else shown[i] in live;
    }

    method ShowCached() returns (shown: seq<ShareTarget>)
      ensures |shown| == |discoveryCache|
      ensures forall t :: t in shown <==> exists e :: e in discoveryCache && discoveryCache[e] == t
    {
      shown := [];
      var rest := discoveryCache.Keys;
      ghost var done: set<EndpointId> := {};
      while rest != {}
        invariant done + rest == discoveryCache.Keys && done !! rest
        invariant |shown| == |done|
        invariant forall t :: t in shown <==> exists e :: e in done && discoveryCache[e] == t
        decreases |rest|
      {
        var e :| e in rest;
        ghost var before := shown;
        shown := shown + [discoveryCache[e]];
        assert forall t :: t in shown <==> t in before || t == discoveryCache[e];
        done, rest := done + {e}, rest - {e};
      }
      assert done == discoveryCache.Keys;
    }

    method ShowLive() returns (shown: seq<ShareTarget>)
      requires Bijection(State())
      ensures |shown| == |outgoingShareSessionMap|
      ensures forall t :: t in shown <==> t.id in outgoingShareSessionMap && outgoingShareSessionMap[t.id].target == t
    {
      shown := [];
      var rest := outgoingShareSessionMap.Keys;
      ghost var all := rest;
      while rest != {}
        invariant rest <= all && ShowsExactly(shown, all - rest, outgoingShareSessionMap)
        decreases |rest|
      {
        EmptyOrInhabited(rest);
        var id :| id in rest;
        ShowsPush(shown, all - rest, outgoingShareSessionMap, id);
        shown := shown + [outgoingShareSessionMap[id].target];
        assert all - (rest - {id}) == (all - rest) + {id};
        rest := rest - {id};
      }
      assert all - rest == all;
    }
  }
}
