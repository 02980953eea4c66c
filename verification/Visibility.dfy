/** Temporary visibility of sharing/nearby_sharing_settings.cc: the expiry timer, the fallback to return to, and
    their copies in persisted preferences across restarts. Times are in nanoseconds since the Unix epoch.
 */
module VisibilitySettings {
  import opened Wrappers
  import opened DeviceVisibilities

  const SECOND := 1_000_000_000
  const MAX_EXPIRATION_SECONDS := 600
  const DEFAULT_FALLBACK := Hidden

  // `expiration` is in seconds, 0 for none.
  datatype Prefs = Prefs(visibility: Visibility, expiration: int, fallback: Visibility)

  /** `timer` is the deadline of the running timer and `seen` the history of effective visibilities, the first
      one being that found when the history begins. `lastTime` is None in the infinite past. */
  datatype Settings = Settings(prefs: Prefs, fallback: Visibility, timer: Option<int>,
                               lastVisibility: Visibility, lastTime: Option<int>, seen: seq<Visibility>)

  // Selected contacts is read and written as self share.
  function Effective(v: Visibility): Visibility { if v == SelectedContacts then SelfShare else v }

  function GetVisibility(s: Settings): Visibility { Effective(s.prefs.visibility) }

  function UnixSeconds(t: int): int { t / SECOND }

  function SetFallback(s: Settings, v: Visibility): Settings {
    if v == Everyone then s else s.(fallback := v, prefs := s.prefs.(fallback := v))
  }

  function Cap(expiration: int): int {
    if expiration > MAX_EXPIRATION_SECONDS * SECOND then MAX_EXPIRATION_SECONDS * SECOND else expiration
  }

  function SetVisibility(s: Settings, visibility: Visibility, expiration: int, now: int): Settings {
    var last, e := GetVisibility(s), Cap(expiration);
    var s1 := SetFallback(s, last);
    Settings(Prefs(Effective(visibility), if e != 0 then UnixSeconds(now + e) else 0, s1.prefs.fallback),
             s1.fallback, if e != 0 then Some(now + e) else None, last, Some(now), s.seen + [Effective(visibility)])
  }

  function TimerFires(s: Settings, now: int): Settings {
    SetVisibility(s.(timer := None), s.fallback, 0, now)
  }

  // A new object over the same preferences; only they survive.
  function Restart(s: Settings, now: int): Settings {
    var remaining := s.prefs.expiration - UnixSeconds(now);
    var s1 := Settings(s.prefs, s.prefs.fallback, None, Unspecified, None, s.seen);
    if 0 < remaining <= MAX_EXPIRATION_SECONDS then s1.(timer := Some(now + remaining * SECOND))
    else if s.prefs.expiration != 0 then SetVisibility(s1, s1.fallback, 0, now)
    else s1
  }

  // The fallback and expiry shown while a timer runs.
  function GetFallback(s: Settings): (Visibility, int) {
    if s.timer.Some? then (s.fallback, s.prefs.expiration) else (Unspecified, 0)
  }

  // ---------------------------------------------------------------- runs

  datatype Step = Set(visibility: Visibility, expiration: int, now: int) | Fire(now: int) | Reboot(now: int)

  function Next(s: Settings, step: Step): Settings {
    match step
    case Set(visibility, expiration, now) => SetVisibility(s, visibility, expiration, now)
    case Fire(now) => if s.timer.Some? && s.timer.value <= now then TimerFires(s, now) else s
    case Reboot(now) => Restart(s, now)
  }

  function Exec(s: Settings, steps: seq<Step>): Settings {
    if steps == [] then s else Next(Exec(s, steps[..|steps| - 1]), steps[|steps| - 1])
  }

  // Before the first start over stored preferences.
  function Stored(prefs: Prefs): Settings {
    Settings(prefs, DEFAULT_FALLBACK, None, Unspecified, None, [Effective(prefs.visibility)])
  }

  // First start over whatever was stored.
  function Start(prefs: Prefs, now: int): Settings {
    Restart(Stored(prefs), now)
  }

  // ---------------------------------------------------------------- what every run keeps

  // The most recent visibility other than everyone, or the given one if there was none.
  function Recent(seen: seq<Visibility>, stored: Visibility): Visibility {
    if seen == [] then stored
    else if seen[|seen| - 1] != Everyone then seen[|seen| - 1]
    else Recent(seen[..|seen| - 1], stored)
  }

  ghost predicate Inv(s: Settings, stored: Visibility) {
    && s.fallback != Everyone
    && s.fallback == s.prefs.fallback
    && s.seen != [] && s.seen[|s.seen| - 1] == GetVisibility(s)
    && (GetVisibility(s) == Everyone ==> s.fallback == Recent(s.seen, stored))
    && TimerMatches(s)
  }

  // The deadline lies within the second that begins at the stored expiry.
  ghost predicate TimerMatches(s: Settings) {
    match s.timer
    case None => s.prefs.expiration == 0
    case Some(deadline) => s.prefs.expiration * SECOND <= deadline < (s.prefs.expiration + 1) * SECOND
  }

  lemma RecentPush(seen: seq<Visibility>, v: Visibility, stored: Visibility)
    ensures Recent(seen + [v], stored) == if v != Everyone then v else Recent(seen, stored)
  {
    assert (seen + [v])[..|seen|] == seen;
  }

  // Setting a visibility makes the most recent other one the fallback.
  lemma {:induction false} SetVisibilityKeeps(s: Settings, visibility: Visibility, expiration: int, now: int,
                                              stored: Visibility)
    requires s.fallback == s.prefs.fallback != Everyone && s.seen != [] && s.seen[|s.seen| - 1] == GetVisibility(s)
    requires GetVisibility(s) == Everyone ==> s.fallback == Recent(s.seen, stored)
    ensures Inv(SetVisibility(s, visibility, expiration, now), stored)
    ensures SetVisibility(s, visibility, expiration, now).fallback == Recent(s.seen, stored)
  {
    RecentPush(s.seen, Effective(visibility), stored);
  }

  lemma NextKeeps(s: Settings, step: Step, stored: Visibility)
    requires Inv(s, stored)
    ensures Inv(Next(s, step), stored)
  {
    match step
    case Set(visibility, expiration, now) => SetVisibilityKeeps(s, visibility, expiration, now, stored);
    case Fire(now) => SetVisibilityKeeps(s.(timer := None), s.fallback, 0, now, stored);
    case Reboot(now) => RestartKeeps(s, now, stored);
  }

  lemma {:induction false} RestartKeeps(s: Settings, now: int, stored: Visibility)
    requires s.prefs.fallback != Everyone && s.seen != [] && s.seen[|s.seen| - 1] == GetVisibility(s)
    requires GetVisibility(s) == Everyone ==> s.prefs.fallback == Recent(s.seen, stored)
    ensures Inv(Restart(s, now), stored)
  {
    var s1 := Settings(s.prefs, s.prefs.fallback, None, Unspecified, None, s.seen);
    SetVisibilityKeeps(s1, s1.fallback, 0, now, stored);
  }

  // Main result, for every sequence of changes, expiries and restarts, at whatever times: the fallback is
  // never everyone, equals its persisted copy and, while everyone is in force, is the most recent other
  // visibility; and a running timer ends less than a second after the stored expiry.
  lemma {:induction false} EveryRun(prefs: Prefs, start: int, steps: seq<Step>)
    requires prefs.fallback != Everyone
    ensures Inv(Exec(Start(prefs, start), steps), prefs.fallback)
  {
    if steps == [] {
      assert Stored(prefs).seen[..0] == [];
      RestartKeeps(Stored(prefs), start, prefs.fallback);
    } else {
      EveryRun(prefs, start, steps[..|steps| - 1]);
      NextKeeps(Exec(Start(prefs, start), steps[..|steps| - 1]), steps[|steps| - 1], prefs.fallback);
    }
  }

  predicate Expired(prefs: Prefs, now: int) {
    prefs.expiration != 0 && !(0 < prefs.expiration - UnixSeconds(now) <= MAX_EXPIRATION_SECONDS)
  }

  // The step sets a visibility, by the client or by expiry, while one other than everyone is in force.
  predicate ReplacesOther(s: Settings, step: Step) {
    && GetVisibility(s) != Everyone
    && match step
       case Set(_, _, _) => true
       case Fire(now) => s.timer.Some? && s.timer.value <= now
       case Reboot(now) => Expired(s.prefs, now)
  }

  ghost predicate NeverReplacesOther(s: Settings, steps: seq<Step>) {
    forall i :: 0 <= i < |steps| ==> !ReplacesOther(Exec(s, steps[..i]), steps[i])
  }

  lemma NeverReplacesInit(s: Settings, steps: seq<Step>)
    requires steps != []
    ensures var init := steps[..|steps| - 1];
            NeverReplacesOther(s, steps) <==>
            NeverReplacesOther(s, init) && !ReplacesOther(Exec(s, init), steps[|steps| - 1])
  {
    var init := steps[..|steps| - 1];
    forall i | 0 <= i < |init| ensures init[..i] == steps[..i] && init[i] == steps[i] {
    }
  }

  lemma KeptByRestart(s: Settings, now: int)
    ensures var s1 := Restart(s, now);
            && s1.fallback == s1.prefs.fallback
            && (s1.fallback == Everyone <==> s.prefs.fallback == Everyone && !ReplacesOther(s, Reboot(now)))
  {
  }

  lemma KeptByStep(s: Settings, step: Step)
    requires s.fallback == s.prefs.fallback
    ensures var s1 := Next(s, step);
            && s1.fallback == s1.prefs.fallback
            && (s1.fallback == Everyone <==> s.fallback == Everyone && !ReplacesOther(s, step))
  {
    if step.Reboot? {
      KeptByRestart(s, step.now);
    }
  }

  // A stored fallback of everyone is not corrected as such: in every run it lasts exactly until a visibility other
  // than everyone is replaced.
  lemma {:induction false} StoredEveryoneKeptIff(prefs: Prefs, start: int, steps: seq<Step>)
    ensures var s := Exec(Start(prefs, start), steps);
            && s.fallback == s.prefs.fallback
            && (s.fallback == Everyone <==>
                && prefs.fallback == Everyone
                && !ReplacesOther(Stored(prefs), Reboot(start))
                && NeverReplacesOther(Start(prefs, start), steps))
  {
    if steps == [] {
      KeptByRestart(Stored(prefs), start);
    } else {
      var init := steps[..|steps| - 1];
      StoredEveryoneKeptIff(prefs, start, init);
      NeverReplacesInit(Start(prefs, start), steps);
      KeptByStep(Exec(Start(prefs, start), init), steps[|steps| - 1]);
    }
  }

  // A restart over a stored fallback of everyone keeps it, and keeps it stored.
  lemma StoredEveryoneOutlivesRestart(now: int)
    ensures var s := Exec(Start(Prefs(Hidden, 0, Everyone), 0), [Reboot(now)]);
            s.fallback == s.prefs.fallback == Everyone
  {
    var s := Start(Prefs(Hidden, 0, Everyone), 0);
    assert [Reboot(now)][..0] == [] && Exec(s, [Reboot(now)]) == Next(Exec(s, []), Reboot(now));
  }

  // Main result: a temporary visibility ends in the most recent one other than everyone, through however many
  // restarts while it lasts and whether the timer fires or a restart finds it expired (with the clock past 1970).
  lemma {:induction false} TemporaryEnds(s: Settings, visibility: Visibility, expiration: int, now: int,
                                         steps: seq<Step>, stored: Visibility)
    requires Inv(s, stored) && Cap(expiration) != 0
    requires forall i :: 0 <= i < |steps| ==> steps[i].Reboot? && steps[i].now >= 0
    ensures var s1 := SetVisibility(s, visibility, expiration, now);
            var s2 := Exec(s1, steps);
            && (s2.timer.Some? ==> GetVisibility(s2) == Effective(visibility) && s2.fallback == Recent(s.seen, stored))
            && (s2.timer.None? && s1.prefs.expiration != 0 ==> GetVisibility(s2) == Effective(Recent(s.seen, stored)))
            && (s2.timer.Some? ==> forall t :: s2.timer.value <= t ==>
                  GetVisibility(Next(s2, Fire(t))) == Effective(Recent(s.seen, stored)))
  {
    SetVisibilityKeeps(s, visibility, expiration, now, stored);
    RebootsKeepTemporary(SetVisibility(s, visibility, expiration, now), steps);
  }

  // Main result: that is the visibility it replaced exactly when that was not everyone.
  lemma {:induction false} TemporaryRestoresIff(s: Settings, visibility: Visibility, expiration: int, now: int,
                                                steps: seq<Step>, stored: Visibility)
    requires Inv(s, stored) && Cap(expiration) != 0
    requires forall i :: 0 <= i < |steps| ==> steps[i].Reboot? && steps[i].now >= 0
    ensures var s1 := SetVisibility(s, visibility, expiration, now);
            var s2 := Exec(s1, steps);
            && (s2.timer.None? && s1.prefs.expiration != 0 ==>
                  (GetVisibility(s2) == GetVisibility(s) <==> GetVisibility(s) != Everyone))
            && (s2.timer.Some? ==> forall t :: s2.timer.value <= t ==>
                  (GetVisibility(Next(s2, Fire(t))) == GetVisibility(s) <==> GetVisibility(s) != Everyone))
  {
    TemporaryEnds(s, visibility, expiration, now, steps, stored);
    assert Recent(s.seen, stored) == if GetVisibility(s) != Everyone then GetVisibility(s) else s.fallback;
  }

  // It is not restored here: everyone, then hidden for five minutes, ends in the stored fallback.
  lemma EveryoneIsNotRestored()
    ensures var s := Start(Prefs(Everyone, 0, SelfShare), 0);
            var s1 := Exec(s, [Set(Hidden, 300 * SECOND, 0), Fire(300 * SECOND)]);
            GetVisibility(s) == Everyone && GetVisibility(s1) == SelfShare && s1.timer == None
  {
    var s := Start(Prefs(Everyone, 0, SelfShare), 0);
    var change, fire := Set(Hidden, 300 * SECOND, 0), Fire(300 * SECOND);
    assert [change, fire][..1] == [change] && [change][..0] == [];
    assert Exec(s, [change]) == Next(Exec(s, []), change);
  }

  lemma {:induction false} RebootsKeepTemporary(s: Settings, steps: seq<Step>)
    requires s.fallback == s.prefs.fallback && TimerMatches(s) && s.timer.Some?
    requires forall i :: 0 <= i < |steps| ==> steps[i].Reboot? && steps[i].now >= 0
    ensures var s1 := Exec(s, steps);
            && s1.fallback == s1.prefs.fallback
            && (s1.timer.Some? ==> s1.prefs == s.prefs && s1.fallback == s.fallback)
            && (s1.timer.None? ==>
                  || s1.prefs == s.prefs
                  || (s1.prefs.expiration == 0 && s1.prefs.visibility == Effective(s.fallback)))
            && (s1.timer.None? && s1.prefs == s.prefs ==> s.prefs.expiration == 0)
  {
    if steps != [] {
      var init := steps[..|steps| - 1];
      assert forall i :: 0 <= i < |init| ==> init[i] == steps[i];
      RebootsKeepTemporary(s, init);
      assert steps[|steps| - 1].Reboot? && UnixSeconds(steps[|steps| - 1].now) >= 0;
    }
  }

  // Restarting while a temporary visibility lasts moves its end by less than a second.
  lemma RestartKeepsDeadline(s: Settings, now: int)
    requires TimerMatches(s) && s.timer.Some? && Restart(s, now).timer.Some?
    ensures -SECOND < Restart(s, now).timer.value - s.timer.value < SECOND
    ensures Restart(s, now).timer.value - now <= MAX_EXPIRATION_SECONDS * SECOND
  {
  }
}
