// The service object behind Surfaces, with the mutually recursive invalidation methods of
// sharing/nearby_sharing_service_impl.cc. Their recursion ends because StartScanning only goes on
// when it has just turned the scanning flag on.
module SharingServices {
  import opened Surfaces

  class NearbySharingServiceImpl {
    var env: Env
    var isScreenLocked: bool
    var cooldownTimer: bool
    var foregroundSendSurfaces: set<int>
    var backgroundSendSurfaces: set<int>
    var foregroundReceiveCallbacks: set<int>
    var backgroundReceiveCallbacks: set<int>
    var isTransferring: bool
    var isConnecting: bool
    var isReceivingFiles: bool
    var isSendingFiles: bool
    var isScanning: bool
    var advertisingPowerLevel: PowerLevel
    var fastInitAdvertising: bool
    var fastInitScanning: bool
    var invalidatePosted: bool
    var shuttingDown: bool
    var log: seq<Command>

    ghost function In(): Inputs
      reads this
    {
      Inputs(env, isScreenLocked, cooldownTimer, foregroundSendSurfaces, backgroundSendSurfaces,
             foregroundReceiveCallbacks, backgroundReceiveCallbacks,
             isTransferring, isConnecting, isReceivingFiles, isSendingFiles)
    }

    ghost function Dev(): Devices
      reads this
    {
      Devices(isScanning, advertisingPowerLevel, fastInitAdvertising, fastInitScanning)
    }

    ghost function State(): Service
      reads this
    {
      Service(In(), Dev(), invalidatePosted, shuttingDown, log)
    }

    constructor (env: Env, locked: bool)
      ensures State() == NewService(env, locked)
    {
      this.env, isScreenLocked, cooldownTimer := env, locked, false;
      foregroundSendSurfaces, backgroundSendSurfaces := {}, {};
      foregroundReceiveCallbacks, backgroundReceiveCallbacks := {}, {};
      isTransferring, isConnecting, isReceivingFiles, isSendingFiles := false, false, false, false;
      isScanning, advertisingPowerLevel, fastInitAdvertising, fastInitScanning := false, Unknown, false, false;
      invalidatePosted, shuttingDown, log := true, false, [];
    }

    method InvalidateSurfaceState()
      modifies this
      ensures State() == Surfaces.Invalidate(old(State()))
    {
      InvalidateSendSurfaceState();
      InvalidateReceiveSurfaceState();
    }

    method InvalidateSendSurfaceState()
      modifies this
      ensures State() == InvalidateSend(old(State()))
      decreases !isScanning, 2
    {
      InvalidateScanningState();
      InvalidateFastInitiationAdvertising();
    }

    method InvalidateScanningState()
      modifies this
      ensures State() == InvalidateScanning(old(State()))
      decreases !isScanning, 1
    {
      if isScreenLocked {
        StopScanning();
        return;
      }
      if !env.Mediums() {
        StopScanning();
        return;
      }
      if isTransferring || isConnecting {
        StopScanning();
        return;
      }
      if foregroundSendSurfaces == {} {
        StopScanning();
        return;
      }
      StartScanning();
    }

    method InvalidateFastInitiationAdvertising()
      modifies this
      ensures State() == SetFastAdvertising(old(State()), ShouldFastAdvertise(old(In())))
    {
      if isScreenLocked || !env.btPowered || isTransferring || isConnecting || foregroundSendSurfaces == {} {
        StopFastInitiationAdvertising();
        return;
      }
      StartFastInitiationAdvertising();
    }

    method InvalidateReceiveSurfaceState()
      modifies this
      ensures State() == InvalidateReceive(old(State()))
    {
      InvalidateAdvertisingState();
      InvalidateFastInitiationScanning();
    }

    method InvalidateAdvertisingState()
      modifies this
      ensures State() == SetPower(old(State()), TargetPower(old(In()), old(advertisingPowerLevel)))
    {
      if isScreenLocked && !env.selfShareUi {
        StopAdvertising();
        return;
      }
      if !env.Mediums() {
        StopAdvertising();
        return;
      }
      if isTransferring {
        StopAdvertising();
        return;
      }
      if foregroundReceiveCallbacks == {} && backgroundReceiveCallbacks == {} {
        StopAdvertising();
        return;
      }
      if !env.visible {
        StopAdvertising();
        return;
      }
      var powerLevel := if foregroundReceiveCallbacks != {} then HighPower else LowPower;
      if advertisingPowerLevel != Unknown {
        if powerLevel == advertisingPowerLevel {
          return;
        }
        StopAdvertising();
      }
      if !env.canBuild {
        return;
      }
      log := log + [StartAdvertising(powerLevel)];
      advertisingPowerLevel := powerLevel;
    }

    method StopAdvertising()
      modifies this
      ensures State() == StopAdvertisingNow(old(State()))
    {
      if advertisingPowerLevel == Unknown {
        return;
      }
      log := log + [Surfaces.StopAdvertising];
      advertisingPowerLevel := Unknown;
    }

    method StartScanning()
      requires ShouldScan(In())
      modifies this
      ensures State() == InvalidateScanning(old(State()))
      decreases !isScanning, 0
    {
      if isScanning {
        return;
      }
      isScanning := true;
      assert State() == old(State()).(devices := old(Dev()).(scanning := true));
      InvalidateReceiveSurfaceState();
      log := log + [LoseAllTargets, StartDiscovery];
      assert State() == BeginScan(old(State()));
      BeginScanThenSend(old(State()));
      InvalidateSendSurfaceState();
    }

    method StopScanning()
      modifies this
      ensures State() == StopScanningNow(old(State()))
    {
      if !isScanning {
        return;
      }
      log := log + [StopDiscovery];
      isScanning := false;
      invalidatePosted := true;
    }

    method StopAdvertisingAndInvalidateSurfaceState()
      modifies this
      ensures State() == Surfaces.Invalidate(StopAdvertisingNow(old(State())))
    {
      if advertisingPowerLevel != Unknown {
        StopAdvertising();
      }
      assert State() == StopAdvertisingNow(old(State()));
      InvalidateSurfaceState();
    }

    method InvalidateFastInitiationScanning()
      modifies this
      ensures State() == InvalidateFastScanning(old(State()))
    {
      if cooldownTimer || isScreenLocked || !env.btPowered || isScanning || isTransferring
         || advertisingPowerLevel == HighPower || !(env.btPresent && env.offload) {
        StopFastInitiationScanning();
        return;
      }
      StartFastInitiationScanning();
    }

    method StartFastInitiationScanning()
      modifies this
      ensures State() == SetFastScanning(old(State()), true)
    {
      if fastInitScanning {
        return;
      }
      log := log + [StartFastScanning];
      fastInitScanning := true;
    }

    method StopFastInitiationScanning()
      modifies this
      ensures State() == SetFastScanning(old(State()), false)
    {
      if !fastInitScanning {
        return;
      }
      log := log + [StopFastScanning];
      fastInitScanning := false;
    }

    method StartFastInitiationAdvertising()
      modifies this
      ensures State() == SetFastAdvertising(old(State()), true)
    {
      if fastInitAdvertising {
        return;
      }
      log := log + [StartFastAdvertising];
      fastInitAdvertising := true;
    }

    method StopFastInitiationAdvertising()
      modifies this
      ensures State() == SetFastAdvertising(old(State()), false)
    {
      if !fastInitAdvertising {
        return;
      }
      log := log + [StopFastAdvertising];
      fastInitAdvertising := false;
    }

    // ---------------------------------------------------------------- tasks

    method RegisterSendSurface(callback: int, foreground: bool, blocked: bool)
      modifies this
      ensures State() == Surfaces.RegisterSendSurface(old(State()), callback, foreground, blocked)
    {
      if callback in foregroundSendSurfaces || callback in backgroundSendSurfaces {
        return;
      }
      if blocked {
        return;
      }
      if foreground {
        foregroundSendSurfaces := foregroundSendSurfaces + {callback};
      } else {
        backgroundSendSurfaces := backgroundSendSurfaces + {callback};
      }
      if isReceivingFiles {
        InternalUnregisterSendSurface(callback);
        return;
      }
      InvalidateSendSurfaceState();
    }

    method InternalUnregisterSendSurface(callback: int)
      modifies this
      ensures State() == UnregisterSendSurface(old(State()), callback)
    {
      if callback !in foregroundSendSurfaces && callback !in backgroundSendSurfaces {
        return;
      }
      if callback in foregroundSendSurfaces {
        foregroundSendSurfaces := foregroundSendSurfaces - {callback};
      } else {
        backgroundSendSurfaces := backgroundSendSurfaces - {callback};
      }
      assert State() == old(State()).(inputs := In());
      InvalidateSurfaceState();
    }

    method RegisterReceiveSurface(callback: int, foreground: bool, blocked: bool)
      modifies this
      ensures State() == Surfaces.RegisterReceiveSurface(old(State()), callback, foreground, blocked)
    {
      if callback in foregroundReceiveCallbacks || callback in backgroundReceiveCallbacks || blocked {
        return;
      }
      if foreground {
        foregroundReceiveCallbacks := foregroundReceiveCallbacks + {callback};
      } else {
        backgroundReceiveCallbacks := backgroundReceiveCallbacks + {callback};
      }
      InvalidateReceiveSurfaceState();
    }

    method InternalUnregisterReceiveSurface(callback: int)
      modifies this
      ensures State() == UnregisterReceiveSurface(old(State()), callback)
    {
      if callback !in foregroundReceiveCallbacks && callback !in backgroundReceiveCallbacks {
        return;
      }
      if callback in foregroundReceiveCallbacks {
        foregroundReceiveCallbacks := foregroundReceiveCallbacks - {callback};
      } else {
        backgroundReceiveCallbacks := backgroundReceiveCallbacks - {callback};
      }
      assert State() == old(State()).(inputs := In());
      InvalidateSurfaceState();
    }

    method SendAttachments(valid: bool)
      modifies this
      ensures State() == Send(old(State()), valid)
    {
      if !isScanning {
        return;
      }
      if !valid {
        return;
      }
      OnTransferStarted(false);
      isConnecting := true;
      InvalidateSendSurfaceState();
    }

    method OnTransferStarted(isIncoming: bool)
      modifies this
      ensures State() == TransferStarted(old(State()), isIncoming)
    {
      isTransferring := true;
      if isIncoming {
        isReceivingFiles := true;
      } else {
        isSendingFiles := true;
      }
      assert State() == old(State()).(inputs := In());
      InvalidateSurfaceState();
    }

    method OnTransferComplete()
      modifies this
      ensures State() == TransferComplete(old(State()))
    {
      isReceivingFiles := false;
      isTransferring := false;
      isSendingFiles := false;
      invalidatePosted := true;
    }

    method OnOutgoingTransferUpdate(event: TransferEvent)
      modifies this
      ensures State() == OnOutgoing(old(State()), event)
    {
      if event == Final {
        isConnecting := false;
        OnTransferComplete();
      } else if event == AwaitingLocalConfirmation {
        isConnecting := false;
        OnTransferStarted(false);
      }
    }

    method OnIncomingTransferUpdate(event: TransferEvent)
      modifies this
      ensures State() == OnIncoming(old(State()), event)
    {
      if event == Final {
        OnTransferComplete();
      } else if event == AwaitingLocalConfirmation {
        OnTransferStarted(true);
      }
    }

    method OnLockStateChanged(locked: bool)
      requires !shuttingDown
      modifies this
      ensures State() == Next(old(State()), LockChanged(locked))
    {
      isScreenLocked := locked;
      assert State() == old(State()).(inputs := In());
      InvalidateSurfaceState();
    }

    method StopEverything()
      modifies this
      ensures State() == StopAll(old(State())) && Dev() == IDLE && In() == old(In())
    {
      StopAllStops(State());
      StopAdvertising();
      StopFastInitiationScanning();
      StopFastInitiationAdvertising();
      StopScanning();
    }

    method Shutdown()
      modifies this
      ensures State() == ShutDown(old(State()))
    {
      shuttingDown := true;
      StopEverything();
      ghost var stopped := State();
      Cleanup();
      foregroundReceiveCallbacks, backgroundReceiveCallbacks := {}, {};
      assert In() == NoSurfaces(stopped.inputs);
      assert State() == stopped.(inputs := NoSurfaces(stopped.inputs));
    }

    // The flags that Cleanup resets; everything has been stopped before.
    method Cleanup()
      requires Dev() == IDLE
      modifies this
      ensures log == old(log) && invalidatePosted == old(invalidatePosted) && shuttingDown == old(shuttingDown)
      ensures env == old(env) && isScreenLocked == old(isScreenLocked) && cooldownTimer == old(cooldownTimer)
      ensures foregroundReceiveCallbacks == old(foregroundReceiveCallbacks)
      ensures backgroundReceiveCallbacks == old(backgroundReceiveCallbacks)
      ensures foregroundSendSurfaces == {} && backgroundSendSurfaces == {}
      ensures !isTransferring && !isConnecting && !isReceivingFiles && !isSendingFiles
      ensures Dev() == IDLE
    {
      foregroundSendSurfaces, backgroundSendSurfaces := {}, {};
      isScanning := false;
      isTransferring := false;
      isReceivingFiles := false;
      isSendingFiles := false;
      isConnecting := false;
      advertisingPowerLevel := Unknown;
    }
  }
}
