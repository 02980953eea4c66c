// The settings object behind VisibilitySettings (sharing/nearby_sharing_settings.cc). The persisted
// preferences are an object of their own, which outlives it.
module NearbyShareSettingsModel {
  import opened Wrappers
  import opened DeviceVisibilities
  import V = VisibilitySettings

  class PreferenceManager {
    var visibility: Visibility
    var expirationSeconds: int
    var fallbackVisibility: Visibility

    constructor (visibility: Visibility, expirationSeconds: int, fallbackVisibility: Visibility)
      ensures Prefs() == V.Prefs(visibility, expirationSeconds, fallbackVisibility)
    {
      this.visibility, this.expirationSeconds := visibility, expirationSeconds;
      this.fallbackVisibility := fallbackVisibility;
    }

    ghost function Prefs(): V.Prefs
      reads this
    {
      V.Prefs(visibility, expirationSeconds, fallbackVisibility)
    }
  }

  class NearbyShareSettings {
    const preferenceManager: PreferenceManager
    var fallbackVisibility: Visibility
    var visibilityExpirationTimer: Option<int>
    var lastVisibility: Visibility
    var lastVisibilityTimestamp: Option<int>
    ghost var seen: seq<Visibility>

    ghost function State(): V.Settings
      reads this, preferenceManager
    {
      V.Settings(preferenceManager.Prefs(), fallbackVisibility, visibilityExpirationTimer, lastVisibility,
                 lastVisibilityTimestamp, seen)
    }

    // `seen` is the history so far; a restart continues it.
    constructor (preferenceManager: PreferenceManager, now: int, ghost previous: V.Settings)
      requires previous.prefs == preferenceManager.Prefs()
      modifies preferenceManager
      ensures this.preferenceManager == preferenceManager
      ensures State() == V.Restart(previous, now)
    {
      this.preferenceManager := preferenceManager;
      fallbackVisibility := V.DEFAULT_FALLBACK;
      visibilityExpirationTimer := None;
      lastVisibility, lastVisibilityTimestamp, seen := Unspecified, None, previous.seen;
      new;
      RestoreFallbackVisibility(now);
    }

    method GetVisibility() returns (visibility: Visibility)
      ensures visibility == V.GetVisibility(State())
    {
      visibility := preferenceManager.visibility;
      if visibility == SelectedContacts {
        visibility := SelfShare;
      }
    }

    method StartVisibilityTimer(expiration: int, now: int)
      modifies this`visibilityExpirationTimer
      ensures visibilityExpirationTimer == Some(now + expiration)
    {
      visibilityExpirationTimer := Some(now + expiration);
    }

    method RestoreFallbackVisibility(now: int)
      requires visibilityExpirationTimer == None && lastVisibility == Unspecified && lastVisibilityTimestamp == None
      modifies this, preferenceManager
      ensures State() == V.Restart(old(State()), now)
    {
      var expirationSeconds := preferenceManager.expirationSeconds;
      fallbackVisibility := preferenceManager.fallbackVisibility;
      var remainingSeconds := expirationSeconds - V.UnixSeconds(now);
      if remainingSeconds > 0 && remainingSeconds <= V.MAX_EXPIRATION_SECONDS {
        StartVisibilityTimer(remainingSeconds * V.SECOND, now);
      } else if expirationSeconds != 0 {
        SetVisibility(fallbackVisibility, 0, now);
      }
    }

    method SetVisibility(requested: Visibility, duration: int, now: int)
      modifies this, preferenceManager
      ensures State() == V.SetVisibility(old(State()), requested, duration, now)
    {
      var visibility, expiration := requested, duration;
      if visibility == SelectedContacts {
        visibility := SelfShare;
      }
      var last := GetVisibility();
      var maxExpiration := V.MAX_EXPIRATION_SECONDS * V.SECOND;
      if expiration > maxExpiration {
        expiration := maxExpiration;
      }
      visibilityExpirationTimer := None;
      SetFallbackVisibility(last);
      if expiration != 0 {
        preferenceManager.expirationSeconds := V.UnixSeconds(now + expiration);
        StartVisibilityTimer(expiration, now);
      } else {
        preferenceManager.expirationSeconds := 0;
      }
      lastVisibilityTimestamp := Some(now);
      lastVisibility := last;
      preferenceManager.visibility := visibility;
      seen := seen + [visibility];
    }

    method SetFallbackVisibility(visibility: Visibility)
      modifies this`fallbackVisibility, preferenceManager`fallbackVisibility
      ensures State() == V.SetFallback(old(State()), visibility)
    {
      if visibility == Everyone {
        return;
      }
      fallbackVisibility := visibility;
      preferenceManager.fallbackVisibility := visibility;
    }

    // The timer's callback.
    method OnVisibilityTimerExpired(now: int)
      modifies this, preferenceManager
      ensures State() == V.TimerFires(old(State()), now)
    {
      var visibility := fallbackVisibility;
      visibilityExpirationTimer := None;
      SetVisibility(visibility, 0, now);
    }

    method GetFallbackVisibility() returns (visibility: Visibility, fallbackTime: int)
      ensures (visibility, fallbackTime) == V.GetFallback(State())
    {
      visibility, fallbackTime := Unspecified, 0;
      if visibilityExpirationTimer.Some? {
        visibility, fallbackTime := fallbackVisibility, preferenceManager.expirationSeconds;
      }
    }
  }
}
