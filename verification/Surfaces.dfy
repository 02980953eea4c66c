/** Surface invalidation of sharing/nearby_sharing_service_impl.cc: which of scanning, advertising, fast
    initiation advertising and fast initiation scanning must run, given the registered surfaces, the
    transfer flags and the radios.

    The functions below give each step in closed form; the class in SharingService.dfy has the source's
    mutually recursive methods and is proved equal to them.
 */
module Surfaces {
  import opened Wrappers

  datatype PowerLevel = Unknown | LowPower | HighPower

  // `offload` is scan offload support and `canBuild` whether endpoint info can be created.
  datatype Env = Env(selfShareUi: bool, btPresent: bool, btPowered: bool, wifiLanFlag: bool,
                     lanConnected: bool, offload: bool, visible: bool, canBuild: bool)
  {
    predicate Mediums() { btPowered || (wifiLanFlag && lanConnected) }
  }

  // What invalidation reads.
  datatype Inputs = Inputs(env: Env, locked: bool, cooldown: bool,
                           fgSend: set<int>, bgSend: set<int>, fgRecv: set<int>, bgRecv: set<int>,
                           transferring: bool, connecting: bool, receiving: bool, sending: bool)

  // What invalidation drives, as the service's flags have it.
  datatype Devices = Devices(scanning: bool, power: PowerLevel, fastAdvertising: bool, fastScanning: bool)

  const IDLE := Devices(false, Unknown, false, false)

  datatype Command =
    | StartDiscovery | StopDiscovery | StartAdvertising(level: PowerLevel) | StopAdvertising
    | StartFastAdvertising | StopFastAdvertising | StartFastScanning | StopFastScanning | LoseAllTargets

  // ---------------------------------------------------------------- the declared targets

  predicate Busy(i: Inputs) { i.transferring || i.connecting }

  predicate ShouldScan(i: Inputs) {
    !i.locked && i.env.Mediums() && !Busy(i) && i.fgSend != {}
  }

  predicate ShouldFastAdvertise(i: Inputs) {
    !i.locked && i.env.btPowered && !Busy(i) && i.fgSend != {}
  }

  function DesiredPower(i: Inputs): PowerLevel {
    if i.locked && !i.env.selfShareUi then Unknown
    else if !i.env.Mediums() || i.transferring || !i.env.visible then Unknown
    else if i.fgRecv != {} then HighPower
    else if i.bgRecv != {} then LowPower
    else Unknown
  }

  // A level already in use is kept; changing it needs endpoint info.
  function TargetPower(i: Inputs, power: PowerLevel): PowerLevel {
    if DesiredPower(i) == power || i.env.canBuild then DesiredPower(i) else Unknown
  }

  predicate MayFastScan(i: Inputs, scanning: bool, power: PowerLevel) {
    && !i.locked && i.env.btPowered && !scanning && !i.transferring
    && power != HighPower && i.env.btPresent && i.env.offload
  }

  predicate ShouldFastScan(i: Inputs, scanning: bool, power: PowerLevel) {
    !i.cooldown && MayFastScan(i, scanning, power)
  }

  // ---------------------------------------------------------------- invalidation in closed form

  function ReceiveTarget(i: Inputs, d: Devices): Devices {
    var power := TargetPower(i, d.power);
    Devices(d.scanning, power, d.fastAdvertising, ShouldFastScan(i, d.scanning, power))
  }

  // Starting a scan invalidates both surfaces again before it returns.
  function ScanningTarget(i: Inputs, d: Devices): Devices {
    if ShouldScan(i) && !d.scanning
    then ReceiveTarget(i, d.(scanning := true)).(fastAdvertising := ShouldFastAdvertise(i))
    else d.(scanning := ShouldScan(i))
  }

  function SendTarget(i: Inputs, d: Devices): Devices {
    ScanningTarget(i, d).(fastAdvertising := ShouldFastAdvertise(i))
  }

  function Target(i: Inputs, d: Devices): Devices { ReceiveTarget(i, SendTarget(i, d)) }

  function PowerCommands(power: PowerLevel, next: PowerLevel): seq<Command> {
    var stop: seq<Command> := if power == Unknown then [] else [StopAdvertising];
    var start: seq<Command> := if next == Unknown then [] else [StartAdvertising(next)];
    if next == power then [] else stop + start
  }

  function FastAdvertisingCommands(on: bool, next: bool): seq<Command> {
    if on == next then [] else if next then [StartFastAdvertising] else [StopFastAdvertising]
  }

  function FastScanningCommands(on: bool, next: bool): seq<Command> {
    if on == next then [] else if next then [StartFastScanning] else [StopFastScanning]
  }

  function ReceiveCommands(i: Inputs, d: Devices): seq<Command> {
    var t := ReceiveTarget(i, d);
    PowerCommands(d.power, t.power) + FastScanningCommands(d.fastScanning, t.fastScanning)
  }

  function ScanningCommands(i: Inputs, d: Devices): seq<Command> {
    if d.scanning == ShouldScan(i) then []
    else if d.scanning then [StopDiscovery]
    else ReceiveCommands(i, d.(scanning := true)) + [LoseAllTargets, StartDiscovery]
  }

  function SendCommands(i: Inputs, d: Devices): seq<Command> {
    ScanningCommands(i, d) + FastAdvertisingCommands(d.fastAdvertising, ShouldFastAdvertise(i))
  }

  function Commands(i: Inputs, d: Devices): seq<Command> {
    SendCommands(i, d) + ReceiveCommands(i, SendTarget(i, d))
  }

  // ---------------------------------------------------------------- what invalidation reaches

  ghost predicate OnTarget(i: Inputs, d: Devices) {
    && d.scanning == ShouldScan(i)
    && d.fastAdvertising == ShouldFastAdvertise(i)
    && d.power == TargetPower(i, d.power)
    && d.fastScanning == ShouldFastScan(i, d.scanning, d.power)
  }

  // Main result: invalidation reaches the declared target from every state.
  lemma InvalidateReachesTarget(i: Inputs, d: Devices)
    ensures OnTarget(i, Target(i, d))
    ensures Target(i, d).power == DesiredPower(i) || (Target(i, d).power == Unknown && !i.env.canBuild)
  {
  }

  // It issues no command exactly when the target is already reached, and then changes nothing; in
  // particular repeating it is silent.
  lemma SilentIffOnTarget(i: Inputs, d: Devices)
    ensures OnTarget(i, d) <==> Target(i, d) == d
    ensures OnTarget(i, d) <==> Commands(i, d) == []
    ensures Commands(i, Target(i, d)) == []
  {
    InvalidateReachesTarget(i, d);
    SilentIfOnTarget(i, d);
    SilentIfOnTarget(i, Target(i, d));
  }

  lemma SilentIfOnTarget(i: Inputs, d: Devices)
    ensures OnTarget(i, d) ==> Commands(i, d) == [] && Target(i, d) == d
    ensures Commands(i, d) == [] ==> OnTarget(i, d)
  {
    if Commands(i, d) == [] {
      assert SendCommands(i, d) == [] && ScanningCommands(i, d) == [];
      assert SendTarget(i, d) == d;
      assert PowerCommands(d.power, TargetPower(i, d.power)) == [];
    }
  }

  // ---------------------------------------------------------------- the radios follow the commands

  // What a command does to the radios; None for a redundant start or stop.
  ghost function Obey(d: Devices, c: Command): Option<Devices> {
    match c
    case StartDiscovery => if d.scanning then None else Some(d.(scanning := true))
    case StopDiscovery => if d.scanning then Some(d.(scanning := false)) else None
    case StartAdvertising(level) => if d.power == Unknown && level != Unknown then Some(d.(power := level)) else None
    case StopAdvertising => if d.power != Unknown then Some(d.(power := Unknown)) else None
    case StartFastAdvertising => if d.fastAdvertising then None else Some(d.(fastAdvertising := true))
    case StopFastAdvertising => if d.fastAdvertising then Some(d.(fastAdvertising := false)) else None
    case StartFastScanning => if d.fastScanning then None else Some(d.(fastScanning := true))
    case StopFastScanning => if d.fastScanning then Some(d.(fastScanning := false)) else None
    case LoseAllTargets => Some(d)
  }

  ghost function Drive(d: Devices, log: seq<Command>): Option<Devices> {
    if log == [] then Some(d)
    else
      var r := Drive(d, log[..|log| - 1]);
      if r == None then None else Obey(r.value, log[|log| - 1])
  }

  ghost function Then(r: Option<Devices>, log: seq<Command>): Option<Devices> {
    if r == None then None else Drive(r.value, log)
  }

  lemma {:induction false} DriveAppend(d: Devices, a: seq<Command>, b: seq<Command>)
    ensures Drive(d, a + b) == Then(Drive(d, a), b)
  {
    if b == [] {
      assert a + b == a;
    } else {
      DriveAppend(d, a, b[..|b| - 1]);
      assert (a + b)[..|a + b| - 1] == a + b[..|b| - 1];
    }
  }

  lemma DriveOne(d: Devices, c: Command)
    ensures Drive(d, [c]) == Obey(d, c)
  {
    assert [c][..0] == [];
  }

  lemma PowerDrives(d: Devices, next: PowerLevel)
    ensures Drive(d, PowerCommands(d.power, next)) == Some(d.(power := next))
  {
    if next != d.power {
      var stop: seq<Command> := if d.power == Unknown then [] else [StopAdvertising];
      var start: seq<Command> := if next == Unknown then [] else [StartAdvertising(next)];
      DriveAppend(d, stop, start);
      DriveOne(d, StopAdvertising);
      DriveOne(d.(power := Unknown), StartAdvertising(next));
    }
  }

  lemma FastDrives(d: Devices, next: bool)
    ensures Drive(d, FastAdvertisingCommands(d.fastAdvertising, next)) == Some(d.(fastAdvertising := next))
    ensures Drive(d, FastScanningCommands(d.fastScanning, next)) == Some(d.(fastScanning := next))
  {
    DriveOne(d, StartFastAdvertising);
    DriveOne(d, StopFastAdvertising);
    DriveOne(d, StartFastScanning);
    DriveOne(d, StopFastScanning);
  }

  // `off` has the radios while the scanning flag may run ahead of the discovery command.
  lemma {:induction false} ReceiveDrives(i: Inputs, d: Devices, off: Devices)
    requires off == d.(scanning := off.scanning)
    ensures Drive(off, ReceiveCommands(i, d)) == Some(ReceiveTarget(i, d).(scanning := off.scanning))
  {
    var t := ReceiveTarget(i, d);
    PowerDrives(off, t.power);
    FastDrives(off.(power := t.power), t.fastScanning);
    DriveAppend(off, PowerCommands(d.power, t.power), FastScanningCommands(d.fastScanning, t.fastScanning));
  }

  lemma SendDrives(i: Inputs, d: Devices)
    ensures Drive(d, SendCommands(i, d)) == Some(SendTarget(i, d))
  {
    var d1 := SendTarget(i, d).(fastAdvertising := d.fastAdvertising);
    assert Drive(d, ScanningCommands(i, d)) == Some(d1) by {
      DriveOne(d, StopDiscovery);
      if ShouldScan(i) && !d.scanning {
        var d0 := ReceiveTarget(i, d.(scanning := true)).(scanning := false);
        ReceiveDrives(i, d.(scanning := true), d);
        DriveOne(d0, LoseAllTargets);
        DriveOne(d0, StartDiscovery);
        DriveAppend(d0, [LoseAllTargets], [StartDiscovery]);
        assert [LoseAllTargets] + [StartDiscovery] == [LoseAllTargets, StartDiscovery];
        DriveAppend(d, ReceiveCommands(i, d.(scanning := true)), [LoseAllTargets, StartDiscovery]);
      }
    }
    FastDrives(d1, ShouldFastAdvertise(i));
    DriveAppend(d, ScanningCommands(i, d), FastAdvertisingCommands(d.fastAdvertising, ShouldFastAdvertise(i)));
  }

  // The commands of an invalidation take the radios from the old flags to the new, none of them redundant.
  lemma CommandsDrive(i: Inputs, d: Devices)
    ensures Drive(d, Commands(i, d)) == Some(Target(i, d))
  {
    var d1 := SendTarget(i, d);
    SendDrives(i, d);
    ReceiveDrives(i, d1, d1);
    DriveAppend(d, SendCommands(i, d), ReceiveCommands(i, d1));
  }

  // ---------------------------------------------------------------- what runs on the service thread

  /** `pending` says that an invalidation has been posted and has yet to run, `down` that the service has
      shut down; `log` is the history of commands to the radios. */
  datatype Service = Service(inputs: Inputs, devices: Devices, pending: bool, down: bool, log: seq<Command>)

  function NewService(env: Env, locked: bool): Service {
    Service(Inputs(env, locked, false, {}, {}, {}, {}, false, false, false, false), IDLE, true, false, [])
  }

  // Stopping a scan posts another invalidation.
  function InvalidateSend(s: Service): Service {
    s.(devices := SendTarget(s.inputs, s.devices), log := s.log + SendCommands(s.inputs, s.devices),
       pending := s.pending || (s.devices.scanning && !ShouldScan(s.inputs)))
  }

  function SetFastAdvertising(s: Service, on: bool): Service {
    s.(devices := s.devices.(fastAdvertising := on),
       log := s.log + FastAdvertisingCommands(s.devices.fastAdvertising, on))
  }

  function SetFastScanning(s: Service, on: bool): Service {
    s.(devices := s.devices.(fastScanning := on), log := s.log + FastScanningCommands(s.devices.fastScanning, on))
  }

  function InvalidateScanning(s: Service): Service {
    var d := ScanningTarget(s.inputs, s.devices);
    s.(devices := d,
       log := s.log + ScanningCommands(s.inputs, s.devices)
                    + FastAdvertisingCommands(s.devices.fastAdvertising, d.fastAdvertising),
       pending := s.pending || (s.devices.scanning && !ShouldScan(s.inputs)))
  }

  function SetPower(s: Service, power: PowerLevel): Service {
    s.(devices := s.devices.(power := power), log := s.log + PowerCommands(s.devices.power, power))
  }

  function StopScanningNow(s: Service): Service {
    if s.devices.scanning
    then s.(devices := s.devices.(scanning := false), log := s.log + [StopDiscovery], pending := true)
    else s
  }

  function InvalidateReceive(s: Service): Service {
    s.(devices := ReceiveTarget(s.inputs, s.devices), log := s.log + ReceiveCommands(s.inputs, s.devices))
  }

  // StartScanning up to the invalidation it ends with.
  function BeginScan(s: Service): Service {
    var s1 := InvalidateReceive(s.(devices := s.devices.(scanning := true)));
    s1.(log := s1.log + [LoseAllTargets, StartDiscovery])
  }

  lemma BeginScanThenSend(s: Service)
    requires ShouldScan(s.inputs) && !s.devices.scanning
    ensures InvalidateSend(BeginScan(s)) == InvalidateScanning(s)
  {
    var s1 := BeginScan(s);
    assert SendTarget(s1.inputs, s1.devices) == ScanningTarget(s.inputs, s.devices);
    assert ScanningCommands(s1.inputs, s1.devices) == [];
    assert s1.log == s.log + ScanningCommands(s.inputs, s.devices);
  }

  function Invalidate(s: Service): Service { InvalidateReceive(InvalidateSend(s)) }

  function StopAdvertisingNow(s: Service): Service { SetPower(s, Unknown) }

  function InvalidateFastScanning(s: Service): Service {
    SetFastScanning(s, ShouldFastScan(s.inputs, s.devices.scanning, s.devices.power))
  }

  datatype TransferEvent = Final | AwaitingLocalConfirmation | Other

  datatype Step =
    | RegisterSend(id: int, foreground: bool, blocked: bool)
    | UnregisterSend(id: int)
    | RegisterReceive(id: int, foreground: bool, blocked: bool)
    | UnregisterReceive(id: int)
    | SendAttachments(valid: bool)
    | OutgoingUpdate(event: TransferEvent)
    | IncomingUpdate(event: TransferEvent)
    | LockChanged(locked: bool)
    | EnvChanged(env: Env)
    | FilesReceived(swallowed: bool)
    | CooldownOver
    | RunPending
    | Restart
    | Shutdown

  function UnregisterSendSurface(s: Service, id: int): Service {
    var i := s.inputs;
    if id !in i.fgSend && id !in i.bgSend then s
    else if id in i.fgSend then Invalidate(s.(inputs := i.(fgSend := i.fgSend - {id})))
    else Invalidate(s.(inputs := i.(bgSend := i.bgSend - {id})))
  }

  // `blocked` stands for a conflicting vendor id.
  function RegisterSendSurface(s: Service, id: int, foreground: bool, blocked: bool): Service {
    var i := s.inputs;
    if id in i.fgSend || id in i.bgSend || blocked then s
    else
      var s1 := s.(inputs := if foreground then i.(fgSend := i.fgSend + {id}) else i.(bgSend := i.bgSend + {id}));
      if i.receiving then UnregisterSendSurface(s1, id) else InvalidateSend(s1)
  }

  function RegisterReceiveSurface(s: Service, id: int, foreground: bool, blocked: bool): Service {
    var i := s.inputs;
    if id in i.fgRecv || id in i.bgRecv || blocked then s
    else InvalidateReceive(
      s.(inputs := if foreground then i.(fgRecv := i.fgRecv + {id}) else i.(bgRecv := i.bgRecv + {id})))
  }

  function UnregisterReceiveSurface(s: Service, id: int): Service {
    var i := s.inputs;
    if id !in i.fgRecv && id !in i.bgRecv then s
    else if id in i.fgRecv then Invalidate(s.(inputs := i.(fgRecv := i.fgRecv - {id})))
    else Invalidate(s.(inputs := i.(bgRecv := i.bgRecv - {id})))
  }

  function TransferStarted(s: Service, incoming: bool): Service {
    var i := s.inputs;
    Invalidate(s.(inputs := i.(transferring := true, receiving := i.receiving || incoming,
                               sending := i.sending || !incoming)))
  }

  function TransferComplete(s: Service): Service {
    s.(inputs := s.inputs.(transferring := false, receiving := false, sending := false), pending := true)
  }

  function Connecting(s: Service, on: bool): Service { s.(inputs := s.inputs.(connecting := on)) }

  // `valid` stands for the checks on attachments, endpoint info and session.
  function Send(s: Service, valid: bool): Service {
    if !s.devices.scanning || !valid then s
    else InvalidateSend(Connecting(TransferStarted(s, false), true))
  }

  function OnOutgoing(s: Service, event: TransferEvent): Service {
    match event
    case Final => TransferComplete(Connecting(s, false))
    case AwaitingLocalConfirmation => TransferStarted(Connecting(s, false), false)
    case Other => s
  }

  function OnIncoming(s: Service, event: TransferEvent): Service {
    match event
    case Final => TransferComplete(s)
    case AwaitingLocalConfirmation => TransferStarted(s, true)
    case Other => s
  }

  function StopAll(s: Service): Service {
    StopScanningNow(SetFastAdvertising(SetFastScanning(StopAdvertisingNow(s), false), false))
  }

  lemma StopAllStops(s: Service)
    ensures StopAll(s).devices == IDLE && StopAll(s).inputs == s.inputs && StopAll(s).down == s.down
  {
  }

  function NoSurfaces(i: Inputs): Inputs {
    Inputs(i.env, i.locked, i.cooldown, {}, {}, {}, {}, false, false, false, false)
  }

  function ShutDown(s: Service): Service {
    StopAll(s.(down := true)).(inputs := NoSurfaces(s.inputs))
  }

  function WithCooldown(s: Service, on: bool): Service {
    s.(inputs := s.inputs.(cooldown := on))
  }

  // Once the service shuts down, tasks are skipped.
  function Next(s: Service, step: Step): Service {
    if s.down then s else
    match step
    case RegisterSend(id, foreground, blocked) => RegisterSendSurface(s, id, foreground, blocked)
    case UnregisterSend(id) => UnregisterSendSurface(s, id)
    case RegisterReceive(id, foreground, blocked) => RegisterReceiveSurface(s, id, foreground, blocked)
    case UnregisterReceive(id) => UnregisterReceiveSurface(s, id)
    case SendAttachments(valid) => Send(s, valid)
    case OutgoingUpdate(event) => OnOutgoing(s, event)
    case IncomingUpdate(event) => OnIncoming(s, event)
    case LockChanged(locked) => Invalidate(s.(inputs := s.inputs.(locked := locked)))
    // Adapters, network and settings report a change by posting an invalidation.
    case EnvChanged(env) => s.(inputs := s.inputs.(env := env), pending := true)
    // The outcome of an incoming transfer starts the cooldown even when the session, having seen a final
    // status already, swallows it.
    case FilesReceived(swallowed) =>
      if swallowed then WithCooldown(s, true) else TransferComplete(WithCooldown(s, true))
    case CooldownOver => InvalidateFastScanning(WithCooldown(s, false))
    case RunPending => Invalidate(s.(pending := false))
    case Restart => Invalidate(StopAdvertisingNow(s))
    case Shutdown => ShutDown(s)
  }

  function Exec(s: Service, steps: seq<Step>): Service {
    if steps == [] then s else Next(Exec(s, steps[..|steps| - 1]), steps[|steps| - 1])
  }

  // ---------------------------------------------------------------- every run

  ghost predicate Exclusive(s: Service) {
    s.devices.scanning ==> !Busy(s.inputs) && s.inputs.fgSend != {}
  }

  // A cooldown may have started without an invalidation; fast scanning then still disregards it.
  ghost predicate OnTargetUpToCooldown(i: Inputs, d: Devices) {
    && d.scanning == ShouldScan(i)
    && d.fastAdvertising == ShouldFastAdvertise(i)
    && d.power == TargetPower(i, d.power)
    && (d.fastScanning == ShouldFastScan(i, d.scanning, d.power) ||
        (i.cooldown && d.fastScanning == MayFastScan(i, d.scanning, d.power)))
  }

  ghost predicate Settled(s: Service) {
    s.down || s.pending || OnTargetUpToCooldown(s.inputs, s.devices)
  }

  ghost predicate Driven(s: Service) {
    Drive(IDLE, s.log) == Some(s.devices)
  }

  lemma InvalidateExclusive(s: Service)
    ensures Exclusive(InvalidateSend(s)) && Exclusive(Invalidate(s))
  {
  }

  lemma UnregisterSendExclusive(s: Service, id: int)
    requires Exclusive(s) || id in s.inputs.fgSend || id in s.inputs.bgSend
    ensures Exclusive(UnregisterSendSurface(s, id))
  {
    var i := s.inputs;
    InvalidateExclusive(s.(inputs := i.(fgSend := i.fgSend - {id})));
    InvalidateExclusive(s.(inputs := i.(bgSend := i.bgSend - {id})));
  }

  lemma RegisterSendExclusive(s: Service, id: int, foreground: bool, blocked: bool)
    requires Exclusive(s)
    ensures Exclusive(RegisterSendSurface(s, id, foreground, blocked))
  {
    var i := s.inputs;
    var i1 := if foreground then i.(fgSend := i.fgSend + {id}) else i.(bgSend := i.bgSend + {id});
    InvalidateExclusive(s.(inputs := i1));
    UnregisterSendExclusive(s.(inputs := i1), id);
  }

  lemma UnregisterReceiveExclusive(s: Service, id: int)
    requires Exclusive(s)
    ensures Exclusive(UnregisterReceiveSurface(s, id))
  {
    var i := s.inputs;
    InvalidateExclusive(s.(inputs := i.(fgRecv := i.fgRecv - {id})));
    InvalidateExclusive(s.(inputs := i.(bgRecv := i.bgRecv - {id})));
  }

  lemma TransferStartedExclusive(s: Service, incoming: bool)
    ensures Exclusive(TransferStarted(s, incoming))
  {
    var i := s.inputs;
    InvalidateExclusive(s.(inputs := i.(transferring := true, receiving := i.receiving || incoming,
                                        sending := i.sending || !incoming)));
  }

  lemma NextExclusive(s: Service, step: Step)
    requires Exclusive(s)
    ensures Exclusive(Next(s, step))
  {
    if s.down { return; }
    match step
    case RegisterSend(id, foreground, blocked) => RegisterSendExclusive(s, id, foreground, blocked);
    case UnregisterSend(id) => UnregisterSendExclusive(s, id);
    case RegisterReceive(id, foreground, blocked) =>
    case UnregisterReceive(id) => UnregisterReceiveExclusive(s, id);
    case SendAttachments(valid) => InvalidateExclusive(Connecting(TransferStarted(s, false), true));
    case OutgoingUpdate(event) => TransferStartedExclusive(Connecting(s, false), false);
    case IncomingUpdate(event) => TransferStartedExclusive(s, true);
    case LockChanged(locked) => InvalidateExclusive(s.(inputs := s.inputs.(locked := locked)));
    case EnvChanged(env) =>
    case FilesReceived(swallowed) =>
    case CooldownOver =>
    case RunPending => InvalidateExclusive(s.(pending := false));
    case Restart => InvalidateExclusive(StopAdvertisingNow(s));
    case Shutdown =>
  }

  lemma InvalidateSettled(s: Service)
    ensures Settled(Invalidate(s))
  {
    InvalidateReachesTarget(s.inputs, s.devices);
  }

  // A send surface comes or goes, or connecting starts, without touching what reception depends on.
  lemma InvalidateSendSettled(s: Service, i: Inputs)
    requires Settled(s) && s.inputs == i.(fgSend := s.inputs.fgSend, bgSend := s.inputs.bgSend,
                                          connecting := s.inputs.connecting)
    ensures Settled(InvalidateSend(s.(inputs := i)))
  {
    assert TargetPower(i, s.devices.power) == TargetPower(s.inputs, s.devices.power);
  }

  lemma InvalidateReceiveSettled(s: Service, i: Inputs)
    requires Settled(s) && s.inputs == i.(fgRecv := s.inputs.fgRecv, bgRecv := s.inputs.bgRecv)
    ensures Settled(InvalidateReceive(s.(inputs := i)))
  {
  }

  lemma NextSettled(s: Service, step: Step)
    requires Settled(s)
    ensures Settled(Next(s, step))
  {
    if s.down { return; }
    var i := s.inputs;
    match step
    case RegisterSend(id, foreground, blocked) => RegisterSendSettled(s, id, foreground, blocked);
    case UnregisterSend(id) => UnregisterSendSettled(s, id);
    case RegisterReceive(id, foreground, blocked) => RegisterReceiveSettled(s, id, foreground, blocked);
    case UnregisterReceive(id) => UnregisterReceiveSettled(s, id);
    case SendAttachments(valid) => SendSettled(s, valid);
    case OutgoingUpdate(event) => TransferStartedSettled(Connecting(s, false), false);
    case IncomingUpdate(event) => TransferStartedSettled(s, true);
    case LockChanged(locked) => InvalidateSettled(s.(inputs := i.(locked := locked)));
    case EnvChanged(env) =>
    case FilesReceived(swallowed) => CooldownStartSettled(s);
    case CooldownOver =>
    case RunPending => InvalidateSettled(s.(pending := false));
    case Restart => InvalidateSettled(StopAdvertisingNow(s));
    case Shutdown =>
  }

  lemma RegisterSendSettled(s: Service, id: int, foreground: bool, blocked: bool)
    requires Settled(s)
    ensures Settled(RegisterSendSurface(s, id, foreground, blocked))
  {
    var i := s.inputs;
    var i1 := if foreground then i.(fgSend := i.fgSend + {id}) else i.(bgSend := i.bgSend + {id});
    InvalidateSendSettled(s, i1);
    UnregisterSendSettled(s.(inputs := i1), id);
  }

  lemma RegisterReceiveSettled(s: Service, id: int, foreground: bool, blocked: bool)
    requires Settled(s)
    ensures Settled(RegisterReceiveSurface(s, id, foreground, blocked))
  {
    var i := s.inputs;
    InvalidateReceiveSettled(s, i.(fgRecv := i.fgRecv + {id}));
    InvalidateReceiveSettled(s, i.(bgRecv := i.bgRecv + {id}));
  }

  lemma UnregisterReceiveSettled(s: Service, id: int)
    requires Settled(s)
    ensures Settled(UnregisterReceiveSurface(s, id))
  {
    var i := s.inputs;
    InvalidateSettled(s.(inputs := i.(fgRecv := i.fgRecv - {id})));
    InvalidateSettled(s.(inputs := i.(bgRecv := i.bgRecv - {id})));
  }

  lemma SendSettled(s: Service, valid: bool)
    requires Settled(s)
    ensures Settled(Send(s, valid))
  {
    var s1 := TransferStarted(s, false);
    TransferStartedSettled(s, false);
    InvalidateSendSettled(s1, s1.inputs.(connecting := true));
  }

  lemma CooldownStartSettled(s: Service)
    requires Settled(s)
    ensures Settled(WithCooldown(s, true))
  {
  }

  lemma UnregisterSendSettled(s: Service, id: int)
    requires Settled(s) || id in s.inputs.fgSend || id in s.inputs.bgSend
    ensures Settled(UnregisterSendSurface(s, id))
  {
    var i := s.inputs;
    InvalidateSettled(s.(inputs := i.(fgSend := i.fgSend - {id})));
    InvalidateSettled(s.(inputs := i.(bgSend := i.bgSend - {id})));
  }

  lemma TransferStartedSettled(s: Service, incoming: bool)
    ensures Settled(TransferStarted(s, incoming))
  {
    var i := s.inputs;
    InvalidateSettled(s.(inputs := i.(transferring := true, receiving := i.receiving || incoming,
                                      sending := i.sending || !incoming)));
  }

  lemma InvalidateSendDriven(s: Service)
    requires Driven(s)
    ensures Driven(InvalidateSend(s))
  {
    SendDrives(s.inputs, s.devices);
    DriveAppend(IDLE, s.log, SendCommands(s.inputs, s.devices));
  }

  lemma InvalidateReceiveDriven(s: Service)
    requires Driven(s)
    ensures Driven(InvalidateReceive(s))
  {
    ReceiveDrives(s.inputs, s.devices, s.devices);
    DriveAppend(IDLE, s.log, ReceiveCommands(s.inputs, s.devices));
  }

  lemma InvalidateDriven(s: Service)
    requires Driven(s)
    ensures Driven(Invalidate(s))
  {
    InvalidateSendDriven(s);
    InvalidateReceiveDriven(InvalidateSend(s));
  }

  lemma StopsDriven(s: Service, on: bool)
    requires Driven(s)
    ensures Driven(StopAdvertisingNow(s)) && Driven(SetFastScanning(s, on)) && Driven(SetFastAdvertising(s, on))
    ensures Driven(StopScanningNow(s))
  {
    var d := s.devices;
    PowerDrives(d, Unknown);
    DriveAppend(IDLE, s.log, PowerCommands(d.power, Unknown));
    FastDrives(d, on);
    DriveAppend(IDLE, s.log, FastScanningCommands(d.fastScanning, on));
    DriveAppend(IDLE, s.log, FastAdvertisingCommands(d.fastAdvertising, on));
    DriveOne(d, StopDiscovery);
    DriveAppend(IDLE, s.log, [StopDiscovery]);
  }

  lemma ShutDownDriven(s: Service)
    requires Driven(s)
    ensures Driven(ShutDown(s)) && ShutDown(s).devices == IDLE
  {
    var s0 := s.(down := true);
    StopsDriven(s0, false);
    StopsDriven(StopAdvertisingNow(s0), false);
    StopsDriven(SetFastScanning(StopAdvertisingNow(s0), false), false);
    StopsDriven(SetFastAdvertising(SetFastScanning(StopAdvertisingNow(s0), false), false), false);
  }

  lemma OutgoingDriven(s: Service, event: TransferEvent)
    requires Driven(s)
    ensures Driven(OnOutgoing(s, event)) && Driven(OnIncoming(s, event))
  {
    TransferStartedDriven(Connecting(s, false), false);
    TransferStartedDriven(s, true);
  }

  lemma LockDriven(s: Service, locked: bool)
    requires Driven(s)
    ensures Driven(Invalidate(s.(inputs := s.inputs.(locked := locked))))
  {
    InvalidateDriven(s.(inputs := s.inputs.(locked := locked)));
  }

  lemma CooldownDriven(s: Service)
    requires Driven(s)
    ensures Driven(WithCooldown(s, true)) && Driven(TransferComplete(WithCooldown(s, true)))
    ensures Driven(InvalidateFastScanning(WithCooldown(s, false)))
  {
    var s1 := WithCooldown(s, false);
    StopsDriven(s1, ShouldFastScan(s1.inputs, s1.devices.scanning, s1.devices.power));
  }

  lemma RestartDriven(s: Service)
    requires Driven(s)
    ensures Driven(Invalidate(StopAdvertisingNow(s))) && Driven(Invalidate(s.(pending := false)))
  {
    StopsDriven(s, false);
    InvalidateDriven(StopAdvertisingNow(s));
    InvalidateDriven(s.(pending := false));
  }

  lemma NextDriven(s: Service, step: Step)
    requires Driven(s)
    ensures Driven(Next(s, step))
  {
    match step
    case RegisterSend(id, foreground, blocked) => RegisterSendDriven(s, id, foreground, blocked);
    case UnregisterSend(id) => UnregisterSendDriven(s, id);
    case RegisterReceive(id, foreground, blocked) => RegisterReceiveDriven(s, id, foreground, blocked);
    case UnregisterReceive(id) => UnregisterReceiveDriven(s, id);
    case SendAttachments(valid) => SendDriven(s, valid);
    case OutgoingUpdate(event) => OutgoingDriven(s, event);
    case IncomingUpdate(event) => OutgoingDriven(s, event);
    case LockChanged(locked) => LockDriven(s, locked);
    case EnvChanged(env) =>
    case FilesReceived(swallowed) => CooldownDriven(s);
    case CooldownOver => CooldownDriven(s);
    case RunPending => RestartDriven(s);
    case Restart => RestartDriven(s);
    case Shutdown => ShutDownDriven(s);
  }

  lemma RegisterReceiveDriven(s: Service, id: int, foreground: bool, blocked: bool)
    requires Driven(s)
    ensures Driven(RegisterReceiveSurface(s, id, foreground, blocked))
  {
    var i := s.inputs;
    InvalidateReceiveDriven(s.(inputs := i.(fgRecv := i.fgRecv + {id})));
    InvalidateReceiveDriven(s.(inputs := i.(bgRecv := i.bgRecv + {id})));
  }

  lemma UnregisterReceiveDriven(s: Service, id: int)
    requires Driven(s)
    ensures Driven(UnregisterReceiveSurface(s, id))
  {
    var i := s.inputs;
    InvalidateDriven(s.(inputs := i.(fgRecv := i.fgRecv - {id})));
    InvalidateDriven(s.(inputs := i.(bgRecv := i.bgRecv - {id})));
  }

  lemma RegisterSendDriven(s: Service, id: int, foreground: bool, blocked: bool)
    requires Driven(s)
    ensures Driven(RegisterSendSurface(s, id, foreground, blocked))
  {
    var i := s.inputs;
    var s1 := s.(inputs := if foreground then i.(fgSend := i.fgSend + {id}) else i.(bgSend := i.bgSend + {id}));
    InvalidateSendDriven(s1);
    UnregisterSendDriven(s1, id);
  }

  lemma SendDriven(s: Service, valid: bool)
    requires Driven(s)
    ensures Driven(Send(s, valid))
  {
    TransferStartedDriven(s, false);
    InvalidateSendDriven(Connecting(TransferStarted(s, false), true));
  }

  lemma UnregisterSendDriven(s: Service, id: int)
    requires Driven(s)
    ensures Driven(UnregisterSendSurface(s, id))
  {
    var i := s.inputs;
    InvalidateDriven(s.(inputs := i.(fgSend := i.fgSend - {id})));
    InvalidateDriven(s.(inputs := i.(bgSend := i.bgSend - {id})));
  }

  lemma TransferStartedDriven(s: Service, incoming: bool)
    requires Driven(s)
    ensures Driven(TransferStarted(s, incoming))
  {
    var i := s.inputs;
    InvalidateDriven(s.(inputs := i.(transferring := true, receiving := i.receiving || incoming,
                                     sending := i.sending || !incoming)));
  }

  // Main result, between any two steps of every run: scanning excludes transferring and connecting and
  // implies a foreground send surface; the radios are where the commands have put them, none of which was
  // redundant; and they are on target (up to a cooldown) unless an invalidation is already posted or the
  // service is down.
  lemma {:induction false} EveryRun(env: Env, locked: bool, steps: seq<Step>)
    ensures var s := Exec(NewService(env, locked), steps); Exclusive(s) && Driven(s) && Settled(s)
  {
    if steps != [] {
      var init, step := steps[..|steps| - 1], steps[|steps| - 1];
      EveryRun(env, locked, init);
      var s := Exec(NewService(env, locked), init);
      NextExclusive(s, step);
      NextDriven(s, step);
      NextSettled(s, step);
    }
  }

  // ---------------------------------------------------------------- the cooldown that misses the target

  // Fast scanning has outlived the start of a cooldown.
  ghost predicate Late(s: Service) { s.inputs.cooldown && s.devices.fastScanning }

  // Main result: after every run, with nothing posted, the radios are on target exactly unless fast scanning
  // is on during a cooldown.
  lemma OnTargetUnlessLate(env: Env, locked: bool, steps: seq<Step>)
    ensures var s := Exec(NewService(env, locked), steps);
            !s.down && !s.pending ==> (OnTarget(s.inputs, s.devices) <==> !Late(s))
  {
    EveryRun(env, locked, steps);
  }

  // It comes from one step only: an incoming outcome while fast scanning is on.
  lemma LateStartsIff(s: Service, step: Step)
    requires !s.down && !Late(s)
    ensures Late(Next(s, step)) <==> step.FilesReceived? && s.devices.fastScanning
  {
    match step
    case RegisterSend(id, foreground, blocked) => RegisterSendNotLate(s, id, foreground, blocked);
    case UnregisterSend(id) => UnregisterSendNotLate(s, id);
    case RegisterReceive(id, foreground, blocked) => ReceiveSurfacesNotLate(s, id, foreground, blocked);
    case UnregisterReceive(id) => ReceiveSurfacesNotLate(s, id, false, false);
    case SendAttachments(valid) => SendNotLate(s, valid);
    case OutgoingUpdate(event) => UpdateNotLate(s, event);
    case IncomingUpdate(event) => UpdateNotLate(s, event);
    case LockChanged(locked) => NotLateAfter(s.(inputs := s.inputs.(locked := locked)));
    case EnvChanged(env) =>
    case FilesReceived(swallowed) => OutcomeLateIff(s);
    case CooldownOver => OutcomeLateIff(s);
    case RunPending => NotLateAfter(s.(pending := false));
    case Restart => NotLateAfter(StopAdvertisingNow(s));
    case Shutdown => StopAllStops(s.(down := true));
  }

  lemma OutcomeLateIff(s: Service)
    ensures Late(WithCooldown(s, true)) <==> s.devices.fastScanning
    ensures Late(TransferComplete(WithCooldown(s, true))) <==> s.devices.fastScanning
    ensures !Late(InvalidateFastScanning(WithCooldown(s, false)))
  {
  }

  lemma RegisterSendNotLate(s: Service, id: int, foreground: bool, blocked: bool)
    requires !Late(s)
    ensures !Late(RegisterSendSurface(s, id, foreground, blocked))
  {
    var i := s.inputs;
    var s1 := s.(inputs := if foreground then i.(fgSend := i.fgSend + {id}) else i.(bgSend := i.bgSend + {id}));
    NotLateAfter(s1);
    UnregisterSendNotLate(s1, id);
  }

  lemma ReceiveSurfacesNotLate(s: Service, id: int, foreground: bool, blocked: bool)
    requires !Late(s)
    ensures !Late(RegisterReceiveSurface(s, id, foreground, blocked)) && !Late(UnregisterReceiveSurface(s, id))
  {
    var i := s.inputs;
    NotLateAfter(s.(inputs := i.(fgRecv := i.fgRecv + {id})));
    NotLateAfter(s.(inputs := i.(bgRecv := i.bgRecv + {id})));
    NotLateAfter(s.(inputs := i.(fgRecv := i.fgRecv - {id})));
    NotLateAfter(s.(inputs := i.(bgRecv := i.bgRecv - {id})));
  }

  lemma SendNotLate(s: Service, valid: bool)
    requires !Late(s)
    ensures !Late(Send(s, valid))
  {
    TransferStartedNotLate(s, false);
    NotLateAfter(Connecting(TransferStarted(s, false), true));
  }

  lemma UpdateNotLate(s: Service, event: TransferEvent)
    requires !Late(s)
    ensures !Late(OnOutgoing(s, event)) && !Late(OnIncoming(s, event))
  {
    TransferStartedNotLate(Connecting(s, false), false);
    TransferStartedNotLate(s, true);
  }

  lemma NotLateAfter(s: Service)
    ensures !Late(InvalidateReceive(s)) && !Late(Invalidate(s))
    ensures !Late(s) ==> !Late(InvalidateSend(s))
  {
  }

  lemma UnregisterSendNotLate(s: Service, id: int)
    requires !Late(s)
    ensures !Late(UnregisterSendSurface(s, id))
  {
    var i := s.inputs;
    NotLateAfter(s.(inputs := i.(fgSend := i.fgSend - {id})));
    NotLateAfter(s.(inputs := i.(bgSend := i.bgSend - {id})));
  }

  lemma TransferStartedNotLate(s: Service, incoming: bool)
    ensures !Late(TransferStarted(s, incoming))
  {
    var i := s.inputs;
    NotLateAfter(s.(inputs := i.(transferring := true, receiving := i.receiving || incoming,
                                 sending := i.sending || !incoming)));
  }

  // Whether the step invalidates reception: directly, or by starting to scan.
  predicate InvalidatesReception(s: Service, step: Step) {
    var i := s.inputs;
    match step
    case RegisterSend(id, foreground, blocked) =>
      && id !in i.fgSend && id !in i.bgSend && !blocked
      && (i.receiving || (!s.devices.scanning && ShouldScan(if foreground then i.(fgSend := i.fgSend + {id}) else i)))
    case UnregisterSend(id) => id in i.fgSend || id in i.bgSend
    case RegisterReceive(id, _, blocked) => id !in i.fgRecv && id !in i.bgRecv && !blocked
    case UnregisterReceive(id) => id in i.fgRecv || id in i.bgRecv
    case SendAttachments(valid) => s.devices.scanning && valid
    case OutgoingUpdate(event) => event == AwaitingLocalConfirmation
    case IncomingUpdate(event) => event == AwaitingLocalConfirmation
    case LockChanged(_) => true
    case RunPending => true
    case Restart => true
    case _ => false
  }

  predicate OfSurfaces(step: Step) {
    step.RegisterSend? || step.UnregisterSend? || step.RegisterReceive? || step.UnregisterReceive?
  }

  // It ends with the next invalidation of reception, with the cooldown, or with the service.
  lemma LateEndsIff(s: Service, step: Step)
    requires !s.down && Late(s)
    ensures !Late(Next(s, step)) <==> InvalidatesReception(s, step) || step.CooldownOver? || step.Shutdown?
  {
    if OfSurfaces(step) {
      SurfaceStepLate(s, step);
    } else {
      OtherStepLate(s, step);
    }
  }

  lemma SurfaceStepLate(s: Service, step: Step)
    requires !s.down && Late(s) && OfSurfaces(step)
    ensures !Late(Next(s, step)) <==> InvalidatesReception(s, step)
  {
    match step
    case RegisterSend(id, foreground, blocked) => RegisterSendLate(s, id, foreground, blocked);
    case UnregisterSend(id) => SurfacesGoneNotLate(s, id);
    case RegisterReceive(id, foreground, blocked) => SurfaceComesNotLate(s, id);
    case UnregisterReceive(id) => SurfacesGoneNotLate(s, id);
  }

  lemma OtherStepLate(s: Service, step: Step)
    requires !s.down && Late(s) && !OfSurfaces(step)
    ensures !Late(Next(s, step)) <==> InvalidatesReception(s, step) || step.CooldownOver? || step.Shutdown?
  {
    match step
    case SendAttachments(valid) => SendLate(s, valid);
    case OutgoingUpdate(event) => TransferStartedNotLate(Connecting(s, false), false);
    case IncomingUpdate(event) => TransferStartedNotLate(s, true);
    case LockChanged(locked) => NotLateAfter(s.(inputs := s.inputs.(locked := locked)));
    case EnvChanged(env) =>
    case FilesReceived(swallowed) => OutcomeLateIff(s);
    case CooldownOver => OutcomeLateIff(s);
    case RunPending => NotLateAfter(s.(pending := false));
    case Restart => NotLateAfter(StopAdvertisingNow(s));
    case Shutdown => StopAllStops(s.(down := true));
  }

  lemma InvalidateSendLateIff(s: Service)
    requires Late(s)
    ensures Late(InvalidateSend(s)) <==> s.devices.scanning || !ShouldScan(s.inputs)
  {
  }

  lemma RegisterSendLate(s: Service, id: int, foreground: bool, blocked: bool)
    requires Late(s)
    ensures !Late(RegisterSendSurface(s, id, foreground, blocked)) <==>
            InvalidatesReception(s, RegisterSend(id, foreground, blocked))
  {
    var i := s.inputs;
    var s1 := s.(inputs := if foreground then i.(fgSend := i.fgSend + {id}) else i.(bgSend := i.bgSend + {id}));
    SurfacesGoneNotLate(s1, id);
    InvalidateSendLateIff(s1);
  }

  lemma SurfacesGoneNotLate(s: Service, id: int)
    requires Late(s)
    ensures Late(UnregisterSendSurface(s, id)) <==> id !in s.inputs.fgSend && id !in s.inputs.bgSend
    ensures Late(UnregisterReceiveSurface(s, id)) <==> id !in s.inputs.fgRecv && id !in s.inputs.bgRecv
  {
    var i := s.inputs;
    NotLateAfter(s.(inputs := i.(fgSend := i.fgSend - {id})));
    NotLateAfter(s.(inputs := i.(bgSend := i.bgSend - {id})));
    NotLateAfter(s.(inputs := i.(fgRecv := i.fgRecv - {id})));
    NotLateAfter(s.(inputs := i.(bgRecv := i.bgRecv - {id})));
  }

  lemma SurfaceComesNotLate(s: Service, id: int)
    ensures !Late(InvalidateReceive(s.(inputs := s.inputs.(fgRecv := s.inputs.fgRecv + {id}))))
    ensures !Late(InvalidateReceive(s.(inputs := s.inputs.(bgRecv := s.inputs.bgRecv + {id}))))
  {
  }

  lemma SendLate(s: Service, valid: bool)
    requires Late(s)
    ensures Late(Send(s, valid)) <==> !(s.devices.scanning && valid)
  {
    TransferStartedNotLate(s, false);
    NotLateAfter(Connecting(TransferStarted(s, false), true));
  }

  // From a state on target the outcome of an incoming transfer misses it, with nothing posted, exactly when
  // the session swallowed it and fast scanning was on.
  lemma SwallowedOutcomeMissesIff(s: Service, swallowed: bool)
    requires !s.down && !s.pending && OnTarget(s.inputs, s.devices)
    ensures var s1 := Next(s, FilesReceived(swallowed));
            s1.pending || OnTarget(s1.inputs, s1.devices) <==> !(swallowed && s.devices.fastScanning)
  {
  }

  // It is reachable: a device that only scans for fast initiation.
  lemma CooldownIsMissed()
    ensures var env := Env(false, true, true, false, false, true, false, true);
            var s := Exec(NewService(env, false), [RunPending, FilesReceived(true)]);
            Late(s) && !s.pending && !s.down && !OnTarget(s.inputs, s.devices)
  {
    var s0 := NewService(Env(false, true, true, false, false, true, false, true), false);
    assert [RunPending, FilesReceived(true)][..1] == [RunPending] && [RunPending][..0] == [];
    assert Exec(s0, [RunPending]) == Next(s0, RunPending);
  }

  // After shutdown every radio is off and stays so.
  lemma {:induction false} ShutdownIsQuiet(s: Service, steps: seq<Step>)
    requires Driven(s) && !s.down
    ensures var s1 := Exec(Next(s, Shutdown), steps);
            s1.log == Next(s, Shutdown).log && Drive(IDLE, s1.log) == Some(IDLE)
    ensures Exec(Next(s, Shutdown), steps) == Next(s, Shutdown)
  {
    ShutDownDriven(s);
    if steps != [] {
      ShutdownIsQuiet(s, steps[..|steps| - 1]);
    }
  }
}
