/** Outgoing target tracking (sharing/outgoing_targets_manager.cc).

    Three maps are kept in step: endpoint id to target id, target id to session, and endpoint id to
    discovery cache entry. Every call also reports discovered / updated / lost events to a client.
    The pure part gives each call as a function on the three maps, `Inv` is what every step keeps, and
    `Exec` runs any sequence of steps. The object itself is in OutgoingTargetsManager.dfy.
 */
module OutgoingTargets {
  import opened Wrappers

  type EndpointId = string

  // `details` stands for the fields of a target that the manager only copies.
  datatype ShareTarget = ShareTarget(id: int, deviceId: string, receiveDisabled: bool, details: string)

  datatype Session = Session(endpoint: EndpointId, target: ShareTarget, certificate: Option<string>, connected: bool)

  datatype Event = Discovered(target: ShareTarget) | Updated(target: ShareTarget) | Lost(target: ShareTarget)

  datatype Targets = Targets(ids: map<EndpointId, int>, sessions: map<int, Session>,
                             cache: map<EndpointId, ShareTarget>)

  const EMPTY := Targets(map[], map[], map[])

  // ---------------------------------------------------------------- the calls, as functions

  // The sessions FindExistingTargetId may return: by endpoint id first, then by non-empty device id.
  function LiveMatches(s: Targets, endpoint: EndpointId, t: ShareTarget): set<int> {
    if endpoint in s.ids then {s.ids[endpoint]}
    else if t.deviceId == "" then {}
    else set id | id in s.sessions && s.sessions[id].target.deviceId == t.deviceId :: s.sessions[id].target.id
  }

  // The cache entries FindInDiscoveryCache may return, by the same two criteria.
  function CacheMatches(s: Targets, endpoint: EndpointId, t: ShareTarget): set<EndpointId> {
    if endpoint in s.cache then {endpoint}
    else if t.deviceId == "" then {}
    else set e | e in s.cache && s.cache[e].deviceId == t.deviceId
  }

  predicate IsChoice<T(==)>(found: Option<T>, candidates: set<T>) {
    match found
    case Some(x) => x in candidates
    case None => candidates == {}
  }

  // UpdateSessionForDedup and the re-keying that follows it.
  function Rebind(s: Targets, t: ShareTarget, endpoint: EndpointId, certificate: Option<string>): Targets {
    if t.id !in s.sessions then s
    else
      var session := s.sessions[t.id];
      if session.connected then
        s.(sessions := s.sessions[t.id := session.(target := t)])
      else
        s.(sessions := s.sessions[t.id := session.(target := t, endpoint := endpoint, certificate := certificate)],
           ids := if session.endpoint == endpoint then s.ids else (s.ids - {session.endpoint})[endpoint := t.id])
  }

  // AddTarget, with both of its defensive branches.
  function AddTarget(s: Targets, t: ShareTarget, endpoint: EndpointId, certificate: Option<string>): Targets {
    if endpoint in s.ids && s.ids[endpoint] != t.id then s
    else
      var ids := s.ids[endpoint := t.id];
      if t.id in s.sessions && s.sessions[t.id].connected then s.(ids := ids)
      else
        var session := if t.id in s.sessions then s.sessions[t.id] else Session(endpoint, t, None, false);
        s.(ids := ids,
           sessions := s.sessions[t.id := if certificate.Some? then session.(certificate := certificate) else session])
  }

  // RemoveTarget, with its defensive branch.
  function RemoveTarget(s: Targets, endpoint: EndpointId, closeConnected: bool): (Targets, Option<ShareTarget>) {
    if endpoint !in s.ids then (s, None)
    else
      var id := s.ids[endpoint];
      if id !in s.sessions then (s.(ids := s.ids - {endpoint}), None)
      else if !closeConnected && s.sessions[id].connected then (s, None)
      else (s.(ids := s.ids - {endpoint}, sessions := s.sessions - {id}), Some(s.sessions[id].target))
  }

  // `live` and `cached` are what the two lookups returned.
  function Discover(s: Targets, t: ShareTarget, endpoint: EndpointId, certificate: Option<string>,
                    live: Option<int>, cached: Option<EndpointId>): (Targets, Event)
    requires live.None? && cached.Some? ==> cached.value in s.cache
  {
    match (live, cached)
    case (Some(id), _) =>
      var u := t.(id := id);
      (Rebind(s, u, endpoint, certificate), Updated(u))
    case (None, Some(e)) =>
      var u := t.(id := s.cache[e].id);
      (AddTarget(s.(cache := s.cache - {e}), u, endpoint, certificate), Updated(u))
    case (None, None) =>
      (AddTarget(s, t, endpoint, certificate), Discovered(t))
  }

  function Lose(s: Targets, endpoint: EndpointId): (Targets, seq<Event>) {
    var (s', removed) := RemoveTarget(s, endpoint, false);
    if removed.None? then (s', [])
    else
      var disabled := removed.value.(receiveDisabled := true);
      (s'.(cache := s'.cache[endpoint := disabled]), [Updated(disabled)])
  }

  function Expire(s: Targets, endpoint: EndpointId): (Targets, seq<Event>) {
    if endpoint !in s.cache then (s, [])
    else (s.(cache := s.cache - {endpoint}), [Lost(s.cache[endpoint])])
  }

  function SetConnected(s: Targets, id: int, connected: bool): Targets {
    if id !in s.sessions then s
    else s.(sessions := s.sessions[id := s.sessions[id].(connected := connected)])
  }

  // AllTargetsLost: one loss after another over a snapshot of the endpoints.
  function LoseAll(s: Targets, order: seq<EndpointId>): (Targets, seq<Event>) {
    if order == [] then (s, [])
    else
      var (s1, e1) := LoseAll(s, order[..|order| - 1]);
      var (s2, e2) := Lose(s1, order[|order| - 1]);
      (s2, e1 + e2)
  }

  // ---------------------------------------------------------------- runs

  datatype Step =
    | DiscoverStep(target: ShareTarget, endpoint: EndpointId, certificate: Option<string>,
                   live: Option<int>, cached: Option<EndpointId>)
    | LoseStep(endpoint: EndpointId)
    | ExpireStep(endpoint: EndpointId)
    | ConnectStep(id: int, connected: bool)
    | CleanupStep

  // `issued` holds every target id handed out so far, `log` every event reported so far, and
  // `abandoned` the ids that were dropped without a lost event.
  datatype World = World(s: Targets, issued: set<int>, log: seq<Event>, abandoned: set<int>)

  const START := World(EMPTY, {}, [], {})

  // A discovered target carries a fresh id and is receive-enabled; both lookups answer truthfully.
  predicate Enabled(w: World, step: Step) {
    match step
    case DiscoverStep(t, endpoint, _, live, cached) =>
      && t.id !in w.issued && !t.receiveDisabled
      && IsChoice(live, LiveMatches(w.s, endpoint, t))
      && (live.None? ==> IsChoice(cached, CacheMatches(w.s, endpoint, t)))
    case _ => true
  }

  function LiveIds(s: Targets): set<int> { s.sessions.Keys }
  function CachedIds(s: Targets): set<int> { set e | e in s.cache :: s.cache[e].id }
  function KnownIds(s: Targets): set<int> { LiveIds(s) + CachedIds(s) }

  // The one way a loss drops another target silently: the removed session's endpoint already holds a
  // cache entry, which is overwritten.
  predicate Overwrites(s: Targets, endpoint: EndpointId) {
    RemoveTarget(s, endpoint, false).1.Some? && endpoint in s.cache
  }

  function Apply(w: World, step: Step): World
    requires Enabled(w, step)
  {
    match step
    case DiscoverStep(t, endpoint, certificate, live, cached) =>
      var (s', event) := Discover(w.s, t, endpoint, certificate, live, cached);
      World(s', w.issued + {t.id}, w.log + [event], w.abandoned)
    case LoseStep(endpoint) =>
      var (s', events) := Lose(w.s, endpoint);
      World(s', w.issued, w.log + events,
            if Overwrites(w.s, endpoint) then w.abandoned + {w.s.cache[endpoint].id} else w.abandoned)
    case ExpireStep(endpoint) =>
      var (s', events) := Expire(w.s, endpoint);
      World(s', w.issued, w.log + events, w.abandoned)
    case ConnectStep(id, connected) =>
      w.(s := SetConnected(w.s, id, connected))
    case CleanupStep =>
      World(EMPTY, w.issued, w.log, w.abandoned + KnownIds(w.s))
  }

  // A step that is not enabled cannot happen; runs skip it.
  function Next(w: World, step: Step): World {
    if Enabled(w, step) then Apply(w, step) else w
  }

  function Exec(w: World, steps: seq<Step>): World {
    if steps == [] then w else Next(Exec(w, steps[..|steps| - 1]), steps[|steps| - 1])
  }

  // ---------------------------------------------------------------- the invariant of the three maps

  ghost predicate Bijection(s: Targets) {
    && (forall e :: e in s.ids ==> s.ids[e] in s.sessions && s.sessions[s.ids[e]].endpoint == e)
    && (forall id :: id in s.sessions ==>
          && s.sessions[id].target.id == id
          && s.sessions[id].endpoint in s.ids && s.ids[s.sessions[id].endpoint] == id)
  }

  ghost predicate CacheDistinct(s: Targets) {
    && (forall e :: e in s.cache ==> s.cache[e].id !in s.sessions)
    && (forall e, f :: e in s.cache && f in s.cache && e != f ==> s.cache[e].id != s.cache[f].id)
  }

  ghost predicate Flags(s: Targets) {
    && (forall id :: id in s.sessions ==> !s.sessions[id].target.receiveDisabled)
    && (forall e :: e in s.cache ==> s.cache[e].receiveDisabled)
  }

  ghost predicate Inv(s: Targets) {
    Bijection(s) && CacheDistinct(s) && Flags(s)
  }

  lemma AddTargetInv(s: Targets, t: ShareTarget, endpoint: EndpointId, certificate: Option<string>)
    requires Inv(s) && endpoint !in s.ids && t.id !in KnownIds(s) && !t.receiveDisabled
    ensures Inv(AddTarget(s, t, endpoint, certificate))
    ensures AddTarget(s, t, endpoint, certificate).cache == s.cache
    ensures LiveIds(AddTarget(s, t, endpoint, certificate)) == LiveIds(s) + {t.id}
    ensures AddTarget(s, t, endpoint, certificate).sessions[t.id].target == t
    ensures forall id :: id in s.sessions ==> AddTarget(s, t, endpoint, certificate).sessions[id] == s.sessions[id]
  {
  }

  lemma RebindInv(s: Targets, t: ShareTarget, endpoint: EndpointId, certificate: Option<string>)
    requires Inv(s) && t.id in s.sessions && !t.receiveDisabled
    requires endpoint in s.ids ==> s.ids[endpoint] == t.id
    ensures Inv(Rebind(s, t, endpoint, certificate))
    ensures Rebind(s, t, endpoint, certificate).cache == s.cache
    ensures LiveIds(Rebind(s, t, endpoint, certificate)) == LiveIds(s)
    ensures forall id :: id in s.sessions ==>
      Rebind(s, t, endpoint, certificate).sessions[id].target == if id == t.id then t else s.sessions[id].target
  {
    RebindTargets(s, t, endpoint, certificate);
    RebindBijection(s, t, endpoint, certificate);
  }

  lemma RebindTargets(s: Targets, t: ShareTarget, endpoint: EndpointId, certificate: Option<string>)
    requires t.id in s.sessions
    ensures Rebind(s, t, endpoint, certificate).cache == s.cache
    ensures LiveIds(Rebind(s, t, endpoint, certificate)) == LiveIds(s)
    ensures forall id :: id in s.sessions ==>
      Rebind(s, t, endpoint, certificate).sessions[id].target == if id == t.id then t else s.sessions[id].target
  {
  }

  lemma RebindBijection(s: Targets, t: ShareTarget, endpoint: EndpointId, certificate: Option<string>)
    requires Bijection(s) && t.id in s.sessions
    requires endpoint in s.ids ==> s.ids[endpoint] == t.id
    ensures Bijection(Rebind(s, t, endpoint, certificate))
  {
    if !s.sessions[t.id].connected {
      RekeyBijection(s, t, endpoint, certificate);
    }
  }

  lemma RekeyBijection(s: Targets, t: ShareTarget, endpoint: EndpointId, certificate: Option<string>)
    requires Bijection(s) && t.id in s.sessions && !s.sessions[t.id].connected
    requires endpoint in s.ids ==> s.ids[endpoint] == t.id
    ensures Bijection(Rebind(s, t, endpoint, certificate))
  {
    var s' := Rebind(s, t, endpoint, certificate);
    var was := s.sessions[t.id].endpoint;
    assert forall id :: id in s.sessions && id != t.id ==> s'.sessions[id] == s.sessions[id];
    forall e | e in s'.ids ensures s'.ids[e] in s'.sessions && s'.sessions[s'.ids[e]].endpoint == e {
      assert e == endpoint || (e in s.ids && e != was && s'.ids[e] == s.ids[e]);
    }
    forall id | id in s'.sessions
      ensures s'.sessions[id].endpoint in s'.ids && s'.ids[s'.sessions[id].endpoint] == id
    {
      assert id == t.id || s.sessions[id].endpoint !in {was, endpoint};
    }
  }

  // The entry of a recovered target leaves the cache; the others stay distinct from the live ids.
  lemma DropCacheInv(s: Targets, e: EndpointId)
    requires Inv(s) && e in s.cache
    ensures Inv(s.(cache := s.cache - {e}))
    ensures CachedIds(s.(cache := s.cache - {e})) == CachedIds(s) - {s.cache[e].id}
  {
    assert forall f :: f in s.cache && s.cache[f].id != s.cache[e].id ==> f in s.cache - {e};
  }

  // A discovery shows one live target, the new one or a known one, and leaves the others as they were.
  lemma DiscoverInv(w: World, step: Step)
    requires step.DiscoverStep? && Enabled(w, step) && Inv(w.s) && KnownIds(w.s) <= w.issued
    ensures var DiscoverStep(t, endpoint, certificate, live, cached) := step;
            var (s', e) := Discover(w.s, t, endpoint, certificate, live, cached);
            && Inv(s')
            && KnownIds(s') == KnownIds(w.s) + {e.target.id}
            && (e.Discovered? || (e.Updated? && e.target.id in KnownIds(w.s)))
            && (e.Discovered? ==> e.target == t)
            && Shows(w.s, s', e.target)
  {
    var DiscoverStep(t, endpoint, certificate, live, cached) := step;
    match (live, cached)
    case (Some(id), _) =>
      RebindInv(w.s, t.(id := id), endpoint, certificate);
    case (None, Some(e)) =>
      DropCacheInv(w.s, e);
      AddTargetInv(w.s.(cache := w.s.cache - {e}), t.(id := w.s.cache[e].id), endpoint, certificate);
    case (None, None) =>
      AddTargetInv(w.s, t, endpoint, certificate);
  }

  ghost predicate Shows(s: Targets, s': Targets, t: ShareTarget) {
    && LiveIds(s') == LiveIds(s) + {t.id}
    && s'.sessions[t.id].target == t
    && (forall id :: id in s.sessions && id != t.id ==> s'.sessions[id].target == s.sessions[id].target)
    && (forall e :: e in s'.cache ==> e in s.cache && s'.cache[e] == s.cache[e])
  }

  lemma LoseInv(s: Targets, endpoint: EndpointId)
    requires Inv(s)
    ensures Inv(Lose(s, endpoint).0)
    ensures KnownIds(Lose(s, endpoint).0)
         == if Overwrites(s, endpoint) then KnownIds(s) - {s.cache[endpoint].id} else KnownIds(s)
  {
    var (s1, removed) := RemoveTarget(s, endpoint, false);
    if removed.Some? {
      var s2 := Lose(s, endpoint).0;
      var id := removed.value.id;
      assert s2.cache[endpoint].id == id;
      forall e | e in s.cache && e != endpoint ensures s.cache[e].id in CachedIds(s2) {
        assert s2.cache[e] == s.cache[e];
      }
      assert LiveIds(s2) == LiveIds(s) - {id};
    }
  }

  lemma ExpireInv(s: Targets, endpoint: EndpointId)
    requires Inv(s)
    ensures Inv(Expire(s, endpoint).0)
    ensures endpoint in s.cache ==> KnownIds(Expire(s, endpoint).0) == KnownIds(s) - {s.cache[endpoint].id}
  {
    if endpoint in s.cache {
      DropCacheInv(s, endpoint);
    }
  }

  // ---------------------------------------------------------------- what the client sees

  // The events about one target, in order.
  function Of(log: seq<Event>, id: int): seq<Event> {
    if log == [] then []
    else
      var h, e := Of(log[..|log| - 1], id), log[|log| - 1];
      if e.target.id == id then h + [e] else h
  }

  // discovered, then any number of updates, then at most one loss and nothing after it
  ghost predicate IsHistory(h: seq<Event>) {
    forall i :: 0 <= i < |h| ==> (h[i].Discovered? <==> i == 0) && (h[i].Lost? ==> i == |h| - 1)
  }

  // A client that inserts on discovery, replaces on update and deletes on loss.
  function View(log: seq<Event>): map<int, ShareTarget> {
    if log == [] then map[]
    else
      var v, e := View(log[..|log| - 1]), log[|log| - 1];
      if e.Lost? then v - {e.target.id} else v[e.target.id := e.target]
  }

  // The targets ForEachShareTarget shows a newly registered client.
  ghost predicate Lists(s: Targets, t: ShareTarget) {
    || (t.id in s.sessions && s.sessions[t.id].target == t)
    || (exists e :: e in s.cache && s.cache[e] == t)
  }

  ghost predicate IdsOk(w: World) {
    && Inv(w.s)
    && KnownIds(w.s) <= w.issued && w.abandoned <= w.issued
    && KnownIds(w.s) !! w.abandoned
  }

  ghost predicate HistoriesOk(w: World) {
    && (forall id :: IsHistory(Of(w.log, id)))
    && (forall id :: id !in w.issued ==> Of(w.log, id) == [])
    && (forall id :: id in KnownIds(w.s) ==> Of(w.log, id) != [] && !Of(w.log, id)[|Of(w.log, id)| - 1].Lost?)
  }

  ghost predicate ViewOk(w: World) {
    && View(w.log).Keys == KnownIds(w.s) + w.abandoned
    && (forall id :: id in w.s.sessions ==> View(w.log)[id] == w.s.sessions[id].target)
    && (forall e :: e in w.s.cache ==> w.s.cache[e].id in View(w.log) && View(w.log)[w.s.cache[e].id] == w.s.cache[e])
  }

  ghost predicate WorldOk(w: World) {
    IdsOk(w) && HistoriesOk(w) && ViewOk(w)
  }

  lemma Append(log: seq<Event>, e: Event)
    ensures View(log + [e]) == if e.Lost? then View(log) - {e.target.id} else View(log)[e.target.id := e.target]
    ensures forall id :: Of(log + [e], id) == if e.target.id == id then Of(log, id) + [e] else Of(log, id)
  {
    assert (log + [e])[..|log|] == log;
  }

  // A single reported event keeps the histories well formed, given what it says about its target.
  lemma EventKeepsHistories(w: World, w': World, e: Event)
    requires IdsOk(w) && HistoriesOk(w) && w'.log == w.log + [e] && w.issued <= w'.issued
    requires e.target.id in w'.issued
    requires e.Discovered? ==> e.target.id !in w.issued
    requires !e.Discovered? ==> e.target.id in KnownIds(w.s)
    requires KnownIds(w'.s) <= KnownIds(w.s) + {e.target.id}
    requires e.Lost? ==> e.target.id !in KnownIds(w'.s)
    ensures HistoriesOk(w')
  {
    Append(w.log, e);
    forall id ensures IsHistory(Of(w'.log, id)) {
      assert IsHistory(Of(w.log, id));
      if id == e.target.id {
        HistoryPush(Of(w.log, id), e);
      }
    }
    forall id | id in KnownIds(w'.s)
      ensures Of(w'.log, id) != [] && !Of(w'.log, id)[|Of(w'.log, id)| - 1].Lost?
    {
      assert id == e.target.id || id in KnownIds(w.s);
    }
  }

  lemma HistoryPush(h: seq<Event>, e: Event)
    requires IsHistory(h) && (e.Discovered? <==> h == []) && (h != [] ==> !h[|h| - 1].Lost?)
    ensures IsHistory(h + [e])
  {
  }

  lemma ShowingKeepsView(w: World, w': World, e: Event)
    requires IdsOk(w) && ViewOk(w) && Inv(w'.s) && Shows(w.s, w'.s, e.target)
    requires !e.Lost? && w'.log == w.log + [e] && w'.abandoned == w.abandoned
    requires KnownIds(w'.s) == KnownIds(w.s) + {e.target.id}
    ensures ViewOk(w')
  {
    Append(w.log, e);
  }

  lemma DiscoverKeeps(w: World, step: Step)
    requires WorldOk(w) && step.DiscoverStep? && Enabled(w, step)
    ensures WorldOk(Apply(w, step))
  {
    DiscoverInv(w, step);
    var w' := Apply(w, step);
    var e := w'.log[|w.log|];
    assert w'.log == w.log + [e];
    EventKeepsHistories(w, w', e);
    ShowingKeepsView(w, w', e);
  }

  lemma LoseKeeps(w: World, endpoint: EndpointId)
    requires WorldOk(w)
    ensures WorldOk(Apply(w, LoseStep(endpoint)))
  {
    var w' := Apply(w, LoseStep(endpoint));
    LoseInv(w.s, endpoint);
    var (s1, removed) := RemoveTarget(w.s, endpoint, false);
    if removed.Some? {
      var e := Updated(removed.value.(receiveDisabled := true));
      assert w'.log == w.log + [e];
      EventKeepsHistories(w, w', e);
      LossKeepsView(w, endpoint, e);
    } else {
      assert w'.log == w.log && w'.s == w.s;
    }
  }

  // A loss shows its target as disabled; an overwritten one stays in the view, now abandoned.
  lemma LossKeepsView(w: World, endpoint: EndpointId, e: Event)
    requires IdsOk(w) && ViewOk(w) && RemoveTarget(w.s, endpoint, false).1.Some?
    requires e == Updated(RemoveTarget(w.s, endpoint, false).1.value.(receiveDisabled := true))
    ensures ViewOk(Apply(w, LoseStep(endpoint)))
  {
    var w' := Apply(w, LoseStep(endpoint));
    LoseInv(w.s, endpoint);
    Append(w.log, e);
    if endpoint in w.s.cache {
      Moved(KnownIds(w.s), w.abandoned, w.s.cache[endpoint].id);
    }
    MovedToCache(w, w', endpoint, e.target);
  }

  lemma Moved(known: set<int>, abandoned: set<int>, id: int)
    requires id in known
    ensures (known - {id}) + (abandoned + {id}) == known + abandoned
  {
  }

  lemma MovedToCache(w: World, w': World, endpoint: EndpointId, t: ShareTarget)
    requires IdsOk(w) && ViewOk(w) && t.id in w.s.sessions && View(w'.log) == View(w.log)[t.id := t]
    requires w'.s.sessions == w.s.sessions - {t.id} && w'.s.cache == w.s.cache[endpoint := t]
    requires KnownIds(w'.s) + w'.abandoned == KnownIds(w.s) + w.abandoned
    ensures ViewOk(w')
  {
  }

  lemma ExpireKeeps(w: World, endpoint: EndpointId)
    requires WorldOk(w)
    ensures WorldOk(Apply(w, ExpireStep(endpoint)))
  {
    var w' := Apply(w, ExpireStep(endpoint));
    ExpireInv(w.s, endpoint);
    if endpoint in w.s.cache {
      var e := Lost(w.s.cache[endpoint]);
      assert w'.log == w.log + [e];
      EventKeepsHistories(w, w', e);
      Append(w.log, e);
    } else {
      assert w'.log == w.log;
    }
  }

  lemma ConnectInv(s: Targets, id: int, connected: bool)
    requires Inv(s)
    ensures Inv(SetConnected(s, id, connected))
    ensures KnownIds(SetConnected(s, id, connected)) == KnownIds(s)
    ensures LiveIds(SetConnected(s, id, connected)) == LiveIds(s)
    ensures forall i :: i in s.sessions ==> SetConnected(s, id, connected).sessions[i].target == s.sessions[i].target
  {
    assert LiveIds(SetConnected(s, id, connected)) == LiveIds(s);
  }

  lemma ConnectKeeps(w: World, id: int, connected: bool)
    requires WorldOk(w)
    ensures WorldOk(Apply(w, ConnectStep(id, connected)))
  {
    ConnectInv(w.s, id, connected);
    var w' := Apply(w, ConnectStep(id, connected));
    assert HistoriesOk(w') by {
      assert KnownIds(w'.s) == KnownIds(w.s);
    }
  }

  lemma CleanupKeeps(w: World)
    requires WorldOk(w)
    ensures WorldOk(Apply(w, CleanupStep))
  {
    assert KnownIds(EMPTY) == {};
  }

  lemma NextKeeps(w: World, step: Step)
    requires WorldOk(w)
    ensures WorldOk(Next(w, step))
  {
    if Enabled(w, step) {
      match step
      case DiscoverStep(_, _, _, _, _) => DiscoverKeeps(w, step);
      case LoseStep(endpoint) => LoseKeeps(w, endpoint);
      case ExpireStep(endpoint) => ExpireKeeps(w, endpoint);
      case ConnectStep(id, connected) => ConnectKeeps(w, id, connected);
      case CleanupStep => CleanupKeeps(w);
    }
  }

  // Main result 1: whatever the steps, the maps stay in bijection, every target's events form one
  // history, and the client's view agrees with the manager on every live and cached target.
  lemma {:induction false} ExecKeeps(w: World, steps: seq<Step>)
    requires WorldOk(w)
    ensures WorldOk(Exec(w, steps))
  {
    if steps != [] {
      ExecKeeps(w, steps[..|steps| - 1]);
      NextKeeps(Exec(w, steps[..|steps| - 1]), steps[|steps| - 1]);
    }
  }

  // The same, stated for runs of a fresh manager and in the client's terms.
  lemma EveryRun(steps: seq<Step>)
    ensures var w := Exec(START, steps);
            && Bijection(w.s) && CacheDistinct(w.s) && Flags(w.s)
            && (forall id :: IsHistory(Of(w.log, id)))
            && (forall t :: Lists(w.s, t) ==> t.id in View(w.log) && View(w.log)[t.id] == t)
            && View(w.log).Keys - KnownIds(w.s) == w.abandoned
  {
    assert WorldOk(START);
    ExecKeeps(START, steps);
    var w := Exec(START, steps);
    assert View(w.log).Keys - KnownIds(w.s) == w.abandoned;
  }

  // The branches kept "just in case" are dead: a live endpoint always has its session, and AddTarget
  // is only ever called with an unused endpoint and an id that has no session.
  lemma {:induction false} DefensiveBranchesAreDead(steps: seq<Step>, step: Step)
    requires step.DiscoverStep? && Enabled(Exec(START, steps), step) && step.live.None?
    ensures var s := Exec(START, steps).s;
            && (forall e :: e in s.ids ==> s.ids[e] in s.sessions)
            && step.endpoint !in s.ids
            && (match step.cached
                case Some(e) => s.cache[e].id !in s.sessions
                case None => step.target.id !in s.sessions)
  {
    assert WorldOk(START);
    ExecKeeps(START, steps);
    assert IdsOk(Exec(START, steps));
  }

  // Main result 2: once an id is neither live nor cached (lost, overwritten or cleaned up), no later
  // step ever reports it again.
  lemma {:induction false} RetiredIsSilent(w: World, steps: seq<Step>, id: int)
    requires WorldOk(w) && id in w.issued && id !in KnownIds(w.s)
    ensures Of(Exec(w, steps).log, id) == Of(w.log, id)
    ensures id in Exec(w, steps).issued && id !in KnownIds(Exec(w, steps).s)
  {
    if steps != [] {
      var v, step := Exec(w, steps[..|steps| - 1]), steps[|steps| - 1];
      RetiredIsSilent(w, steps[..|steps| - 1], id);
      ExecKeeps(w, steps[..|steps| - 1]);
      RetiredStep(v, step, id);
    }
  }

  lemma {:induction false} RetiredStep(w: World, step: Step, id: int)
    requires IdsOk(w) && id in w.issued && id !in KnownIds(w.s)
    ensures Of(Next(w, step).log, id) == Of(w.log, id)
    ensures id in Next(w, step).issued && id !in KnownIds(Next(w, step).s)
  {
    if Enabled(w, step) {
      var w' := Next(w, step);
      match step
      case DiscoverStep(_, _, _, _, _) =>
        DiscoverInv(w, step);
        Append(w.log, w'.log[|w.log|]);
        assert w'.log == w.log + [w'.log[|w.log|]];
      case LoseStep(endpoint) =>
        LoseInv(w.s, endpoint);
        var removed := RemoveTarget(w.s, endpoint, false).1;
        if removed.Some? {
          Append(w.log, Updated(removed.value.(receiveDisabled := true)));
        } else {
          assert w'.log == w.log;
        }
      case ExpireStep(endpoint) =>
        ExpireInv(w.s, endpoint);
        if endpoint in w.s.cache {
          Append(w.log, Lost(w.s.cache[endpoint]));
        } else {
          assert w'.log == w.log;
        }
      case ConnectStep(i, connected) => ConnectInv(w.s, i, connected);
      case CleanupStep => assert KnownIds(EMPTY) == {};
    }
  }

  // In particular nothing that was known before a Cleanup is ever reported after it.
  lemma {:induction false} CleanupSilences(w: World, steps: seq<Step>, id: int)
    requires WorldOk(w) && id in w.issued
    ensures Of(Exec(Next(w, CleanupStep), steps).log, id) == Of(w.log, id)
  {
    NextKeeps(w, CleanupStep);
    assert KnownIds(EMPTY) == {};
    RetiredIsSilent(Next(w, CleanupStep), steps, id);
  }

  lemma ExactIffNoneAbandoned(w: World)
    requires WorldOk(w)
    ensures View(w.log).Keys == KnownIds(w.s) <==> w.abandoned == {}
  {
    var known := KnownIds(w.s);
    if known + w.abandoned == known {
      forall x ensures x !in w.abandoned {
        assert x in w.abandoned ==> x in known + w.abandoned;
      }
    }
  }

  // The client's view is exact as long as no loss overwrites another cache entry and no Cleanup drops
  // a known target, and each of these two really does leave a stale target behind.
  lemma ViewStaysExact(w: World, step: Step)
    requires WorldOk(w) && View(w.log).Keys == KnownIds(w.s)
    ensures View(Next(w, step).log).Keys == KnownIds(Next(w, step).s)
       <==> !(step.LoseStep? && Overwrites(w.s, step.endpoint)) && !(step.CleanupStep? && KnownIds(w.s) != {})
  {
    ExactIffNoneAbandoned(w);
    NextKeeps(w, step);
    ExactIffNoneAbandoned(Next(w, step));
    assert Next(w, step).abandoned == {}
      <==> !(step.LoseStep? && Overwrites(w.s, step.endpoint)) && !(step.CleanupStep? && KnownIds(w.s) != {});
  }

  // Overwriting is reachable: endpoint "E" is cached for target 1 while the device of target 2 moves
  // from "F" to "E" and is lost there in turn. Target 1 then never gets a lost event.
  const A := ShareTarget(1, "a", false, "")
  const B := ShareTarget(2, "b", false, "")
  const FIND_A := DiscoverStep(A, "E", None, None, None)
  const FIND_B := DiscoverStep(B, "F", None, None, None)
  const MOVE_B := DiscoverStep(B.(id := 3), "E", None, Some(2), None)

  lemma CachedAtE()
    ensures var w := Exec(START, [FIND_A, LoseStep("E")]);
            w.s == Targets(map[], map[], map["E" := A.(receiveDisabled := true)])
            && w.issued == {1} && w.abandoned == {}
  {
    assert [] + [FIND_A] == [FIND_A] && [FIND_A] + [LoseStep("E")] == [FIND_A, LoseStep("E")];
    ExecPush(START, [], FIND_A);
    ExecPush(START, [FIND_A], LoseStep("E"));
    assert LiveMatches(EMPTY, "E", A) == {} && CacheMatches(EMPTY, "E", A) == {};
    assert Exec(START, [FIND_A]).s == Targets(map["E" := 1], map[1 := Session("E", A, None, false)], map[]);
  }

  lemma OverwriteIsReachable()
    ensures Exec(START, [FIND_A, LoseStep("E"), FIND_B, MOVE_B, LoseStep("E")]).abandoned == {1}
  {
    CachedAtE();
    var run := [FIND_A, LoseStep("E")];
    var w := Exec(START, run);
    assert run + [FIND_B] == [FIND_A, LoseStep("E"), FIND_B];
    assert run + [FIND_B] + [MOVE_B] == [FIND_A, LoseStep("E"), FIND_B, MOVE_B];
    assert run + [FIND_B] + [MOVE_B] + [LoseStep("E")] == [FIND_A, LoseStep("E"), FIND_B, MOVE_B, LoseStep("E")];
    ExecPush(START, run, FIND_B);
    ExecPush(START, run + [FIND_B], MOVE_B);
    ExecPush(START, run + [FIND_B] + [MOVE_B], LoseStep("E"));
    assert LiveMatches(w.s, "F", B) == {} && CacheMatches(w.s, "F", B) == {};
    var w3 := Next(w, FIND_B);
    assert w3.s.sessions == map[2 := Session("F", B, None, false)] && w3.s.ids == map["F" := 2];
    assert 2 in LiveMatches(w3.s, "E", B.(id := 3)) by { assert w3.s.sessions[2].target.id == 2; }
  }

  lemma ExecPush(w: World, steps: seq<Step>, step: Step)
    ensures Exec(w, steps + [step]) == Next(Exec(w, steps), step)
  {
    assert (steps + [step])[..|steps|] == steps;
  }

  // AllTargetsLost is a run of single losses, so all of the above applies to it.
  lemma {:induction false} LoseAllIsARun(w: World, order: seq<EndpointId>)
    ensures var v := Exec(w, seq(|order|, i requires 0 <= i < |order| => LoseStep(order[i])));
            v.s == LoseAll(w.s, order).0 && v.log == w.log + LoseAll(w.s, order).1
  {
    var steps := seq(|order|, i requires 0 <= i < |order| => LoseStep(order[i]));
    if order != [] {
      var shorter := order[..|order| - 1];
      LoseAllIsARun(w, shorter);
      assert steps[..|steps| - 1] == seq(|shorter|, i requires 0 <= i < |shorter| => LoseStep(shorter[i]));
    }
  }
}
