/**
 * The live-control gateway's device registry: a table from device id to the
 * lifetime object of that device's current connection, with the operations
 * that register a connection, remove it, test for it and route a control
 * frame through it. Every operation is one atomic sequential step.
 */
module LifetimeManager {
  import opened Common

  /** The kind of a control frame, passed through unchanged by the registry. */
  type ControlType = nat

  /** An unsigned 8-bit intensity. */
  newtype Byte = x: int | 0 <= x < 256

  /** The transport-side controller of one connected device; only its id is used here. */
  datatype DeviceController = DeviceController(id: Guid)

  datatype LifetimeState = Created | Active | Disposed

  /**
   * The lifetime of one device connection. It is created for a controller,
   * initialised from the set of shockers registered for the device (or fails
   * to initialise when that load fails), accepts frames for its known
   * shockers while active, and is disposed when superseded.
   */
  class DeviceLifetime {
    const deviceId: Guid
    var state: LifetimeState
    var shockers: set<Guid>

    constructor (controller: DeviceController)
      ensures deviceId == controller.id
      ensures state == Created && shockers == {}
    {
      deviceId := controller.id;
      state := Created;
      shockers := {};
    }

    /** Loads the snapshot of registered shockers; `None` stands for a load that throws. */
    method InitAsync(registered: Option<set<Guid>>) returns (ok: bool)
      requires state == Created
      modifies this
      ensures ok <==> registered.Some?
      ensures state == (if ok then Active else Created)
      ensures shockers == (if ok then registered.value else old(shockers))
    {
      match registered
      case None =>
        ok := false;
      case Some(known) =>
        shockers := known;
        state := Active;
        ok := true;
    }

    /** Whether a frame for `shocker` is handed on to the device. */
    predicate Accepts(shocker: Guid)
      reads this
    {
      state == Active && shocker in shockers
    }

    method ReceiveFrame(shocker: Guid, kind: ControlType, intensity: Byte) returns (delivered: bool)
      ensures delivered <==> Accepts(shocker)
      ensures delivered ==> shocker in shockers
    {
      delivered := state == Active && shocker in shockers;
    }

    /** Disposal is idempotent: a second call changes nothing. */
    method DisposeAsync()
      modifies this
      ensures state == Disposed
      ensures shockers == old(shockers)
      ensures forall s :: !Accepts(s)
    {
      state := Disposed;
    }
  }

  /** The three outcomes of routing a frame. */
  datatype ReceiveFrameResult = Success | DeviceNotFound | ShockerNotFound

  /** One step of the registration protocol, in the order it happens. */
  datatype Step =
    | DisposedOld(lifetime: DeviceLifetime)
    | Constructed(lifetime: DeviceLifetime)
    | Initialised(lifetime: DeviceLifetime)
    | Installed(device: Guid, lifetime: DeviceLifetime)

  /** The steps one registration takes, when `previous` was installed before it. */
  function RegistrationSteps(device: Guid, previous: Option<DeviceLifetime>,
                             created: DeviceLifetime, installed: bool): (s: seq<Step>)
    ensures |s| == (if previous.Some? then 1 else 0) + 1 + (if installed then 2 else 0)
    ensures previous.Some? ==> s[0] == DisposedOld(previous.value) && s[1] == Constructed(created)
    ensures previous.None? ==> s[0] == Constructed(created)
    ensures installed ==> s[|s| - 2] == Initialised(created) && s[|s| - 1] == Installed(device, created)
    ensures installed <==> Installed(device, created) in s
  {
    (if previous.Some? then [DisposedOld(previous.value)] else [])
    + [Constructed(created)]
    + (if installed then [Initialised(created), Installed(device, created)] else [])
  }

  /** The registry, an explicitly owned object rather than a static table. */
  class DeviceLifetimeManager {
    var managers: map<Guid, DeviceLifetime>
    /** Every registration step taken so far. */
    ghost var steps: seq<Step>

    /** Each entry is the lifetime of the device it is filed under. */
    ghost predicate Valid()
      reads this
    {
      forall d :: d in managers ==> managers[d].deviceId == d
    }

    constructor ()
      ensures Valid() && managers == map[] && steps == []
    {
      managers := map[];
      steps := [];
    }

    /** The lifetime currently filed under `device`, if any. */
    function Lookup(device: Guid): (r: Option<DeviceLifetime>)
      reads this
      ensures r.Some? <==> device in managers
      ensures r.Some? ==> r.value == managers[device]
      ensures Valid() && r.Some? ==> r.value.deviceId == device
    {
      if device in managers then Some(managers[device]) else None
    }

    /**
     * Registers a new connection: disposes the lifetime already filed for the
     * device, creates and initialises a new one, and files it. When
     * initialisation fails (`registered == None`, an exception in the
     * C# code) the registry does not write the table; since disposal here
     * does not touch the registry, the old entry stays as it was.
     */
    method AddDeviceConnection(controller: DeviceController, registered: Option<set<Guid>>)
      returns (r: Option<DeviceLifetime>, ghost created: DeviceLifetime)
      requires Valid()
      modifies this, if controller.id in managers then {managers[controller.id]} else {}
      ensures Valid()
      ensures fresh(created) && created.deviceId == controller.id
      ensures r.Some? <==> registered.Some?
      ensures r.Some? ==> r.value == created && created.state == Active && created.shockers == registered.value
      ensures managers == if r.Some? then old(managers)[controller.id := created] else old(managers)
      ensures forall d :: d != controller.id ==> Lookup(d) == old(Lookup(d))
      ensures controller.id in old(managers) ==> old(managers)[controller.id].state == Disposed
      ensures steps == old(steps) + RegistrationSteps(controller.id, old(Lookup(controller.id)), created, r.Some?)
    {
      var previous := Lookup(controller.id);
      if previous.Some? {
        previous.value.DisposeAsync();
        steps := steps + [DisposedOld(previous.value)];
      }
      var lifetime := new DeviceLifetime(controller);
      created := lifetime;
      steps := steps + [Constructed(lifetime)];
      var ok := lifetime.InitAsync(registered);
      if !ok {
        r := None;
        return;
      }
      steps := steps + [Initialised(lifetime)];
      managers := managers[controller.id := lifetime];
      steps := steps + [Installed(controller.id, lifetime)];
      r := Some(lifetime);
    }

    /** Removes the entry filed under the controller's id, whichever lifetime it is. */
    method RemoveDeviceConnection(controller: DeviceController)
      requires Valid()
      modifies this
      ensures Valid()
      ensures managers == old(managers) - {controller.id}
      ensures controller.id !in managers
      ensures forall d :: d != controller.id ==> Lookup(d) == old(Lookup(d))
      ensures steps == old(steps)
    {
      managers := managers - {controller.id};
    }

    method IsConnected(device: Guid) returns (connected: bool)
      ensures connected <==> device in managers
    {
      connected := device in managers;
    }

    /** Routes a control frame to the device's current lifetime. */
    method ReceiveFrame(device: Guid, shocker: Guid, kind: ControlType, intensity: Byte)
      returns (r: ReceiveFrameResult)
      ensures device !in managers <==> r == DeviceNotFound
      ensures r == Success <==> device in managers && managers[device].Accepts(shocker)
      ensures r == ShockerNotFound <==> device in managers && !managers[device].Accepts(shocker)
    {
      var lifetime := Lookup(device);
      if lifetime.None? {
        return DeviceNotFound;
      }
      var delivered := lifetime.value.ReceiveFrame(shocker, kind, intensity);
      r := if delivered then Success else ShockerNotFound;
    }
  }

  /**
   * A device connected with shockers {s1, s2}: a frame for s1 is delivered,
   * one for an unknown shocker is rejected, one for another device finds none.
   */
  method DispatchScenario(d1: Guid, d2: Guid, s1: Guid, s2: Guid, s3: Guid, kind: ControlType)
    returns (known: ReceiveFrameResult, unknownShocker: ReceiveFrameResult, unknownDevice: ReceiveFrameResult)
    requires d1 != d2 && s3 != s1 && s3 != s2
    ensures known == Success && unknownShocker == ShockerNotFound && unknownDevice == DeviceNotFound
  {
    var registry := new DeviceLifetimeManager();
    var _, _ := registry.AddDeviceConnection(DeviceController(d1), Some({s1, s2}));
    known := registry.ReceiveFrame(d1, s1, kind, 50);
    unknownShocker := registry.ReceiveFrame(d1, s3, kind, 10);
    unknownDevice := registry.ReceiveFrame(d2, s1, kind, 10);
  }

  /**
   * A reconnect supersedes the first lifetime: the device stays connected,
   * the first lifetime is disposed, and frames are routed by the second one's
   * shocker set only.
   */
  method ReconnectScenario(d: Guid, s: Guid)
    returns (first: DeviceLifetime, beforeReconnect: ReceiveFrameResult,
             connected: bool, afterReconnect: ReceiveFrameResult)
    ensures beforeReconnect == Success
    ensures connected && afterReconnect == ShockerNotFound
    ensures first.state == Disposed
  {
    var registry := new DeviceLifetimeManager();
    var a, _ := registry.AddDeviceConnection(DeviceController(d), Some({s}));
    first := a.value;
    beforeReconnect := registry.ReceiveFrame(d, s, 0, 10);
    var b, _ := registry.AddDeviceConnection(DeviceController(d), Some({}));
    connected := registry.IsConnected(d);
    afterReconnect := registry.ReceiveFrame(d, s, 0, 10);
  }

  /**
   * A registration whose initialisation fails leaves a fresh device
   * unconnected. Because disposal in this model does not touch the
   * registry, it leaves a reconnecting device filed under its old, now
   * disposed, lifetime, which rejects every frame.
   */
  method FailedInitScenario(d: Guid, s: Guid)
    returns (freshConnected: bool, staleConnected: bool, staleFrame: ReceiveFrameResult)
    ensures !freshConnected
    ensures staleConnected && staleFrame == ShockerNotFound
  {
    var registry := new DeviceLifetimeManager();
    var _, _ := registry.AddDeviceConnection(DeviceController(d), None);
    freshConnected := registry.IsConnected(d);
    var _, _ := registry.AddDeviceConnection(DeviceController(d), Some({s}));
    var _, _ := registry.AddDeviceConnection(DeviceController(d), None);
    staleConnected := registry.IsConnected(d);
    staleFrame := registry.ReceiveFrame(d, s, 0, 10);
  }

  /**
   * Removal is by key: removing with the controller of a superseded
   * connection evicts the newer lifetime filed under the same id.
   */
  method StaleRemoveScenario(d: Guid) returns (connected: bool)
    ensures !connected
  {
    var registry := new DeviceLifetimeManager();
    var oldController := DeviceController(d);
    var _, _ := registry.AddDeviceConnection(oldController, Some({}));
    var _, _ := registry.AddDeviceConnection(DeviceController(d), Some({}));
    registry.RemoveDeviceConnection(oldController);
    connected := registry.IsConnected(d);
  }

  /**
   * The registry's removal only drops the table entry and leaves the removed
   * lifetime's state as it is; its teardown belongs to the controller that
   * calls the removal while being disposed. Within this model, a device
   * removed and then reconnected therefore has two active lifetimes, of
   * which only the second is filed.
   */
  method RemoveThenAddScenario(d: Guid) returns (first: DeviceLifetime, second: DeviceLifetime)
    ensures first != second && first.deviceId == second.deviceId == d
    ensures first.state == Active && second.state == Active
  {
    var registry := new DeviceLifetimeManager();
    var a, _ := registry.AddDeviceConnection(DeviceController(d), Some({}));
    registry.RemoveDeviceConnection(DeviceController(d));
    var b, _ := registry.AddDeviceConnection(DeviceController(d), Some({}));
    first, second := a.value, b.value;
  }
}
