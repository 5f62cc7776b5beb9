/** DebugRouterConnector's device and USB-client mirrors: snapshots from the daemon are
    reconciled one registration at a time, and every registration emits an event. The
    mirrors are insertion-ordered maps, kept here as sequences. */
module Mirrors {
  import opened Options

  datatype Os = Android | IOS | Harmony | Mac | Windows | Linux | Network | OtherOs
  datatype Device = Device(serial: string, os: Os)
  datatype Client = Client(id: int, device: string)  // device is query.device_id

  datatype Event =
    | DeviceConnected(device: Device)
    | DeviceDisconnected(device: Device)
    | ClientConnected(client: Client)
    | ClientDisconnected(id: int)

  datatype Config = Config(android: bool, ios: bool, harmony: bool, desktop: bool, network: bool)

  /** isDeviceSnapshotEnabled */
  predicate Enabled(config: Config, d: Device) {
    match d.os
    case Android => config.android
    case IOS => config.ios
    case Harmony => config.harmony
    case Mac => config.desktop
    case Windows => config.desktop
    case Linux => config.desktop
    case Network => config.network
    case OtherOs => true
  }

  /** Both mirrors. */
  datatype Pair = Pair(devices: seq<Device>, clients: seq<Client>)

  datatype State = State(pair: Pair, selected: Option<int>, events: seq<Event>)

  predicate HasDevice(p: Pair, serial: string) { exists d :: d in p.devices && d.serial == serial }
  predicate HasClient(p: Pair, id: int) { exists c :: c in p.clients && c.id == id }

  function FindDevice(ds: seq<Device>, serial: string): (i: nat)
    ensures i <= |ds| && (forall j :: 0 <= j < i ==> ds[j].serial != serial) && (i < |ds| ==> ds[i].serial == serial)
  {
    if |ds| == 0 || ds[0].serial == serial then 0 else 1 + FindDevice(ds[1..], serial)
  }

  function FindClient(cs: seq<Client>, id: int): (i: nat)
    ensures i <= |cs| && (forall j :: 0 <= j < i ==> cs[j].id != id) && (i < |cs| ==> cs[i].id == id)
  {
    if |cs| == 0 || cs[0].id == id then 0 else 1 + FindClient(cs[1..], id)
  }

  function Drop<T>(s: seq<T>, i: nat): (r: seq<T>)
    requires i < |s|
  {
    s[..i] + s[i + 1..]
  }

  // ---------------------------------------------------------------- one registration

  function Emit(s: State, p: Pair, e: Event): (r: State) { s.(pair := p, events := s.events + [e]) }

  function AddDevice(s: State, d: Device): (r: State) {
    if FindDevice(s.pair.devices, d.serial) < |s.pair.devices| then s
    else Emit(s, s.pair.(devices := s.pair.devices + [d]), DeviceConnected(d))
  }

  function AddClient(s: State, c: Client): (r: State) {
    if FindClient(s.pair.clients, c.id) < |s.pair.clients| then s
    else Emit(s, s.pair.(clients := s.pair.clients + [c]), ClientConnected(c))
  }

  function RemoveDevice(s: State, serial: string): (r: State) {
    var i := FindDevice(s.pair.devices, serial);
    if i == |s.pair.devices| then s
    else Emit(s, s.pair.(devices := Drop(s.pair.devices, i)), DeviceDisconnected(s.pair.devices[i]))
  }

  function RemoveClient(s: State, id: int): (r: State) {
    var i := FindClient(s.pair.clients, id);
    if i == |s.pair.clients| then s
    else
      var t := if s.selected == Some(id) then s.(selected := None) else s;
      Emit(t, s.pair.(clients := Drop(s.pair.clients, i)), ClientDisconnected(id))
  }

  // ---------------------------------------------------------------- whole operations

  function AddDevices(s: State, ds: seq<Device>): (r: State)
    decreases |ds|
  {
    if |ds| == 0 then s else AddDevices(AddDevice(s, ds[0]), ds[1..])
  }

  function AddClients(s: State, cs: seq<Client>): (r: State)
    decreases |cs|
  {
    if |cs| == 0 then s else AddClients(AddClient(s, cs[0]), cs[1..])
  }

  /** Removes the listed devices that are not active. */
  function RemoveDevices(s: State, ds: seq<Device>, active: set<string>): (r: State)
    decreases |ds|
  {
    if |ds| == 0 then s
    else RemoveDevices(if ds[0].serial in active then s else RemoveDevice(s, ds[0].serial), ds[1..], active)
  }

  function RemoveClients(s: State, cs: seq<Client>, active: set<int>): (r: State)
    decreases |cs|
  {
    if |cs| == 0 then s
    else RemoveClients(if cs[0].id in active then s else RemoveClient(s, cs[0].id), cs[1..], active)
  }

  function EnabledDevices(config: Config, ds: seq<Device>): (r: seq<Device>)
    ensures forall d :: d in r <==> d in ds && Enabled(config, d)
  {
    if |ds| == 0 then []
    else (if Enabled(config, ds[0]) then [ds[0]] else []) + EnabledDevices(config, ds[1..])
  }

  /** filterClientSnapshots: clients of mirrored devices. */
  function KnownClients(p: Pair, cs: seq<Client>): (r: seq<Client>)
    ensures forall c :: c in r <==> c in cs && HasDevice(p, c.device)
  {
    if |cs| == 0 then []
    else (if FindDevice(p.devices, cs[0].device) < |p.devices| then [cs[0]] else []) + KnownClients(p, cs[1..])
  }

  function Serials(ds: seq<Device>): (r: set<string>) { set d | d in ds :: d.serial }
  function Ids(cs: seq<Client>): (r: set<int>) { set c | c in cs :: c.id }

  function SyncClients(s: State, cs: seq<Client>): (r: State) {
    var known := KnownClients(s.pair, cs);
    var s1 := AddClients(s, KnownClients(s.pair, known));
    RemoveClients(s1, s1.pair.clients, Ids(known))
  }

  function ApplySnapshot(config: Config, s: State, ds: seq<Device>, cs: seq<Client>): (r: State) {
    var enabled := EnabledDevices(config, ds);
    var s1 := AddDevices(s, EnabledDevices(config, enabled));
    var s2 := SyncClients(s1, cs);
    RemoveDevices(s2, s2.pair.devices, Serials(enabled))
  }

  function ClearMirrors(s: State): (r: State) {
    var s1 := RemoveClients(s, s.pair.clients, {});
    RemoveDevices(s1, s1.pair.devices, {})
  }

  datatype Step =
    | Snapshot(devices: seq<Device>, clients: seq<Client>)
    | DevicesResult(devices: seq<Device>)   // connectDevices answered
    | ClientsResult(clients: seq<Client>)   // connectUsbClients answered
    | DaemonDisconnected
    | Select(id: int)

  function Do(config: Config, s: State, step: Step): (r: State) {
    match step
    case Snapshot(ds, cs) => ApplySnapshot(config, s, ds, cs)
    case DevicesResult(ds) => AddDevices(s, EnabledDevices(config, ds))
    case ClientsResult(cs) => AddClients(s, KnownClients(s.pair, cs))
    case DaemonDisconnected => ClearMirrors(s)
    case Select(id) => if FindClient(s.pair.clients, id) < |s.pair.clients| then s.(selected := Some(id)) else s
  }

  function Run(config: Config, s: State, steps: seq<Step>): (r: State)
    decreases |steps|
  {
    if steps == [] then s else Run(config, Do(config, s, steps[0]), steps[1..])
  }

  predicate Initial(s: State) {
    |s.pair.devices| == 0 && |s.pair.clients| == 0 && s.selected.None? && |s.events| == 0
  }

  // ---------------------------------------------------------------- replaying the events

  /** What a listener that only sees the events would hold. */
  function Apply(p: Pair, e: Event): (r: Pair) {
    match e
    case DeviceConnected(d) => p.(devices := p.devices + [d])
    case ClientConnected(c) => p.(clients := p.clients + [c])
    case DeviceDisconnected(d) =>
      var i := FindDevice(p.devices, d.serial);
      if i < |p.devices| then p.(devices := Drop(p.devices, i)) else p
    case ClientDisconnected(id) =>
      var i := FindClient(p.clients, id);
      if i < |p.clients| then p.(clients := Drop(p.clients, i)) else p
  }

  function Replay(events: seq<Event>): (p: Pair) {
    if |events| == 0 then Pair([], []) else Apply(Replay(events[..|events| - 1]), events[|events| - 1])
  }

  /** A connect announces something new and a disconnect something present. */
  predicate Fitting(p: Pair, e: Event) {
    match e
    case DeviceConnected(d) => !HasDevice(p, d.serial)
    case ClientConnected(c) => !HasClient(p, c.id)
    case DeviceDisconnected(d) => d in p.devices
    case ClientDisconnected(id) => HasClient(p, id)
  }

  /** Every connected client's device is connected. */
  predicate Contained(p: Pair) { forall c :: c in p.clients ==> HasDevice(p, c.device) }

  predicate Distinct(p: Pair) {
    && (forall i, j :: 0 <= i < j < |p.devices| ==> p.devices[i].serial != p.devices[j].serial)
    && (forall i, j :: 0 <= i < j < |p.clients| ==> p.clients[i].id != p.clients[j].id)
  }

  predicate Coherent(s: State) {
    && Replay(s.events) == s.pair
    && Distinct(s.pair)
    && (forall i :: 0 <= i < |s.events| ==> Fitting(Replay(s.events[..i]), s.events[i]))
    && (s.selected.Some? ==> HasClient(s.pair, s.selected.value))
  }

  /** The mirrors are contained now and were after every event so far. */
  predicate AlwaysContained(s: State) {
    Contained(s.pair) && forall i :: 0 <= i <= |s.events| ==> Contained(Replay(s.events[..i]))
  }

  // ---------------------------------------------------------------- one registration keeps them

  lemma EmitKeepsTrace(s: State, p: Pair, e: Event)
    requires Replay(s.events) == s.pair && p == Apply(s.pair, e) && Fitting(s.pair, e)
    requires forall i :: 0 <= i < |s.events| ==> Fitting(Replay(s.events[..i]), s.events[i])
    ensures var r := Emit(s, p, e);
            && Replay(r.events) == p
            && (forall i :: 0 <= i < |r.events| ==> Fitting(Replay(r.events[..i]), r.events[i]))
            && (AlwaysContained(s) && Contained(p) ==> AlwaysContained(r))
  {
    var t := s.events + [e];
    assert t[..|s.events|] == s.events;
    forall i | 0 <= i < |t| ensures t[..i] == s.events[..i] {
    }
    assert t[..|t|] == t;
  }

  lemma DeviceJoins(p: Pair, d: Device)
    requires Distinct(p) && FindDevice(p.devices, d.serial) == |p.devices|
    ensures var q := p.(devices := p.devices + [d]);
            && q == Apply(p, DeviceConnected(d)) && Fitting(p, DeviceConnected(d)) && Distinct(q)
            && (Contained(p) ==> Contained(q)) && HasDevice(q, d.serial)
  {
    var q := p.(devices := p.devices + [d]);
    assert d in q.devices;
    KeepsContained(p, q);
  }

  lemma AddDeviceKeeps(s: State, d: Device)
    requires Coherent(s)
    ensures var r := AddDevice(s, d);
            && Coherent(r) && (AlwaysContained(s) ==> AlwaysContained(r))
            && r.pair.clients == s.pair.clients
            && (forall x :: x in s.pair.devices ==> x in r.pair.devices)
            && (forall x :: x in r.pair.devices ==> x in s.pair.devices || x == d)
            && HasDevice(r.pair, d.serial)
  {
    var i := FindDevice(s.pair.devices, d.serial);
    if i == |s.pair.devices| {
      DeviceJoins(s.pair, d);
      EmitKeepsTrace(s, s.pair.(devices := s.pair.devices + [d]), DeviceConnected(d));
      assert s.selected.Some? ==> HasClient(AddDevice(s, d).pair, s.selected.value);
    } else {
      assert s.pair.devices[i] in s.pair.devices;
    }
  }

  lemma KeepsContained(p: Pair, q: Pair)
    requires forall c :: c in q.clients ==> c in p.clients
    requires forall d :: d in p.devices ==> d in q.devices
    ensures Contained(p) ==> Contained(q)
  {
    if Contained(p) {
      forall c | c in q.clients ensures HasDevice(q, c.device) {
        var d :| d in p.devices && d.serial == c.device;
        assert d in q.devices;
      }
    }
  }

  lemma ClientJoins(p: Pair, c: Client)
    requires Distinct(p) && FindClient(p.clients, c.id) == |p.clients|
    ensures var q := p.(clients := p.clients + [c]);
            && q == Apply(p, ClientConnected(c)) && Fitting(p, ClientConnected(c)) && Distinct(q)
            && (Contained(p) && HasDevice(p, c.device) ==> Contained(q))
            && (forall id :: HasClient(p, id) ==> HasClient(q, id)) && HasClient(q, c.id)
  {
    var q := p.(clients := p.clients + [c]);
    assert forall x :: HasDevice(q, x) == HasDevice(p, x);
    assert c in q.clients;
    forall id | HasClient(p, id) ensures HasClient(q, id) {
      var x :| x in p.clients && x.id == id;
      assert x in q.clients;
    }
  }

  lemma AddClientKeeps(s: State, c: Client)
    requires Coherent(s)
    ensures var r := AddClient(s, c);
            && Coherent(r) && (AlwaysContained(s) && HasDevice(s.pair, c.device) ==> AlwaysContained(r))
            && r.pair.devices == s.pair.devices
            && (forall x :: x in r.pair.clients ==> x in s.pair.clients || x == c)
            && (forall x :: x in s.pair.clients ==> x in r.pair.clients)
            && HasClient(r.pair, c.id)
  {
    var i := FindClient(s.pair.clients, c.id);
    if i == |s.pair.clients| {
      ClientJoins(s.pair, c);
      EmitKeepsTrace(s, s.pair.(clients := s.pair.clients + [c]), ClientConnected(c));
    } else {
      assert s.pair.clients[i] in s.pair.clients;
    }
  }

  lemma DropMembers<T>(s: seq<T>, i: nat)
    requires i < |s|
    ensures forall x :: x in Drop(s, i) ==> x in s
    ensures forall x :: x in s ==> x in Drop(s, i) || x == s[i]
    ensures forall j :: 0 <= j < |s| - 1 ==> Drop(s, i)[j] == s[if j < i then j else j + 1]
  {
    var r := Drop(s, i);
    forall x | x in s ensures x in r || x == s[i] {
      var j :| 0 <= j < |s| && s[j] == x;
      if j < i { assert r[j] == x; } else if j > i { assert r[j - 1] == x; }
    }
  }

  lemma ClientLeaves(p: Pair, i: nat)
    requires Distinct(p) && i < |p.clients| && FindClient(p.clients, p.clients[i].id) == i
    ensures var q, id := p.(clients := Drop(p.clients, i)), p.clients[i].id;
            && q == Apply(p, ClientDisconnected(id)) && Fitting(p, ClientDisconnected(id)) && Distinct(q)
            && (Contained(p) ==> Contained(q))
            && (forall x :: x in q.clients <==> x in p.clients && x.id != id)
            && (forall x :: x != id && HasClient(p, x) ==> HasClient(q, x))
  {
    var q, id := p.(clients := Drop(p.clients, i)), p.clients[i].id;
    DropMembers(p.clients, i);
    KeepsContained(p, q);
    assert p.clients[i] in p.clients;
    forall x | x != id && HasClient(p, x) ensures HasClient(q, x) {
      var c :| c in p.clients && c.id == x;
      assert c in q.clients;
    }
  }

  lemma RemoveClientKeeps(s: State, id: int)
    requires Coherent(s)
    ensures var r := RemoveClient(s, id);
            && Coherent(r) && (AlwaysContained(s) ==> AlwaysContained(r))
            && r.pair.devices == s.pair.devices
            && (forall x :: x in r.pair.clients <==> x in s.pair.clients && x.id != id)
  {
    var i := FindClient(s.pair.clients, id);
    if i < |s.pair.clients| {
      ClientLeaves(s.pair, i);
      var t := if s.selected == Some(id) then s.(selected := None) else s;
      EmitKeepsTrace(t, s.pair.(clients := Drop(s.pair.clients, i)), ClientDisconnected(id));
    }
  }

  lemma DeviceLeaves(p: Pair, i: nat)
    requires Distinct(p) && i < |p.devices| && FindDevice(p.devices, p.devices[i].serial) == i
    ensures var q, d := p.(devices := Drop(p.devices, i)), p.devices[i];
            && q == Apply(p, DeviceDisconnected(d)) && Fitting(p, DeviceDisconnected(d)) && Distinct(q)
            && (Contained(p) && (forall c :: c in p.clients ==> c.device != d.serial) ==> Contained(q))
            && (forall x :: x in q.devices <==> x in p.devices && x.serial != d.serial)
  {
    var q, d := p.(devices := Drop(p.devices, i)), p.devices[i];
    DropMembers(p.devices, i);
    if Contained(p) && forall c :: c in p.clients ==> c.device != d.serial {
      forall c | c in q.clients ensures HasDevice(q, c.device) {
        var x :| x in p.devices && x.serial == c.device;
        assert x in q.devices;
      }
    }
  }

  lemma RemoveDeviceKeeps(s: State, serial: string)
    requires Coherent(s)
    ensures var r := RemoveDevice(s, serial);
            && Coherent(r)
            && (AlwaysContained(s) && (forall c :: c in s.pair.clients ==> c.device != serial) ==> AlwaysContained(r))
            && r.pair.clients == s.pair.clients
            && (forall x :: x in r.pair.devices <==> x in s.pair.devices && x.serial != serial)
  {
    var i := FindDevice(s.pair.devices, serial);
    if i < |s.pair.devices| {
      DeviceLeaves(s.pair, i);
      EmitKeepsTrace(s, s.pair.(devices := Drop(s.pair.devices, i)), DeviceDisconnected(s.pair.devices[i]));
      assert s.selected.Some? ==> HasClient(RemoveDevice(s, serial).pair, s.selected.value);
    }
  }

  // ---------------------------------------------------------------- whole operations keep them

  lemma {:induction false} AddDevicesKeeps(s: State, ds: seq<Device>)
    requires Coherent(s)
    ensures var r := AddDevices(s, ds);
            && Coherent(r) && (AlwaysContained(s) ==> AlwaysContained(r))
            && r.pair.clients == s.pair.clients
            && (forall x :: x in s.pair.devices ==> x in r.pair.devices)
            && (forall x :: x in r.pair.devices ==> x in s.pair.devices || x in ds)
            && (forall d :: d in ds ==> HasDevice(r.pair, d.serial))
    decreases |ds|
  {
    if |ds| > 0 {
      var m, r := AddDevice(s, ds[0]), AddDevices(s, ds);
      AddDeviceKeeps(s, ds[0]);
      AddDevicesKeeps(m, ds[1..]);
      forall d | d in ds ensures HasDevice(r.pair, d.serial) {
        if d == ds[0] {
          var x :| x in m.pair.devices && x.serial == d.serial;
          assert x in r.pair.devices;
        } else {
          assert d in ds[1..];
        }
      }
    }
  }

  lemma {:induction false} AddClientsKeeps(s: State, cs: seq<Client>)
    requires Coherent(s)
    ensures var r := AddClients(s, cs);
            && Coherent(r)
            && (AlwaysContained(s) && (forall c :: c in cs ==> HasDevice(s.pair, c.device)) ==> AlwaysContained(r))
            && r.pair.devices == s.pair.devices
            && (forall x :: x in r.pair.clients ==> x in s.pair.clients || x in cs)
            && (forall x :: x in s.pair.clients ==> x in r.pair.clients)
            && (forall c :: c in cs ==> HasClient(r.pair, c.id))
    decreases |cs|
  {
    if |cs| > 0 {
      var m, r := AddClient(s, cs[0]), AddClients(s, cs);
      AddClientKeeps(s, cs[0]);
      AddClientsKeeps(m, cs[1..]);
      var x :| x in m.pair.clients && x.id == cs[0].id;
      assert x in r.pair.clients;
      assert forall x :: HasDevice(m.pair, x) == HasDevice(s.pair, x);
      assert forall c :: c in cs[1..] ==> c in cs;
    }
  }

  lemma IdsCons(cs: seq<Client>)
    requires |cs| > 0
    ensures forall id :: id in Ids(cs) <==> id == cs[0].id || id in Ids(cs[1..])
  {
    assert cs == [cs[0]] + cs[1..];
  }

  lemma SerialsCons(ds: seq<Device>)
    requires |ds| > 0
    ensures forall x :: x in Serials(ds) <==> x == ds[0].serial || x in Serials(ds[1..])
  {
    assert ds == [ds[0]] + ds[1..];
  }

  lemma {:induction false} RemoveClientsKeeps(s: State, cs: seq<Client>, active: set<int>)
    requires Coherent(s)
    ensures var r := RemoveClients(s, cs, active);
            && Coherent(r) && (AlwaysContained(s) ==> AlwaysContained(r))
            && r.pair.devices == s.pair.devices
            && (forall x :: x in r.pair.clients <==> x in s.pair.clients && (x.id in active || x.id !in Ids(cs)))
    decreases |cs|
  {
    if |cs| > 0 {
      var m := if cs[0].id in active then s else RemoveClient(s, cs[0].id);
      RemoveClientKeeps(s, cs[0].id);
      RemoveClientsKeeps(m, cs[1..], active);
      IdsCons(cs);
    }
  }

  lemma {:induction false} RemoveDevicesKeeps(s: State, ds: seq<Device>, active: set<string>)
    requires Coherent(s)
    ensures var r := RemoveDevices(s, ds, active);
            && Coherent(r)
            && (AlwaysContained(s) && (forall c :: c in s.pair.clients ==> c.device in active) ==> AlwaysContained(r))
            && r.pair.clients == s.pair.clients
            && (forall x :: x in r.pair.devices <==> x in s.pair.devices && (x.serial in active || x.serial !in Serials(ds)))
    decreases |ds|
  {
    if |ds| > 0 {
      var m := if ds[0].serial in active then s else RemoveDevice(s, ds[0].serial);
      RemoveDeviceKeeps(s, ds[0].serial);
      RemoveDevicesKeeps(m, ds[1..], active);
      SerialsCons(ds);
    }
  }

  /** The clients a snapshot leaves: those it lists for mirrored devices, each as first seen. */
  lemma SyncClientsKeeps(s: State, cs: seq<Client>)
    requires Coherent(s)
    ensures var r := SyncClients(s, cs);
            && Coherent(r) && (AlwaysContained(s) ==> AlwaysContained(r))
            && r.pair.devices == s.pair.devices
            && (forall x :: x in r.pair.clients ==>
                  (x in s.pair.clients || x in cs) && exists y :: y in cs && y.id == x.id && HasDevice(s.pair, y.device))
            && (forall y :: y in cs && HasDevice(s.pair, y.device) ==> HasClient(r.pair, y.id))
            && (forall x, y :: x in s.pair.clients && y in cs && y.id == x.id && HasDevice(s.pair, y.device) ==> x in r.pair.clients)
  {
    var known := KnownClients(s.pair, cs);
    var s1 := AddClients(s, KnownClients(s.pair, known));
    AddClientsKeeps(s, KnownClients(s.pair, known));
    RemoveClientsKeeps(s1, s1.pair.clients, Ids(known));
    var r := SyncClients(s, cs);
    forall x | x in r.pair.clients
      ensures (x in s.pair.clients || x in cs) && exists y :: y in cs && y.id == x.id && HasDevice(s.pair, y.device)
    {
      assert x.id in Ids(s1.pair.clients);
      assert x.id in Ids(known);
    }
    forall y | y in cs && HasDevice(s.pair, y.device) ensures HasClient(r.pair, y.id) {
      assert y in known && y in KnownClients(s.pair, known);
      var x :| x in s1.pair.clients && x.id == y.id;
      assert y.id in Ids(known) && x in r.pair.clients;
    }
    forall x, y | x in s.pair.clients && y in cs && y.id == x.id && HasDevice(s.pair, y.device) ensures x in r.pair.clients {
      assert y in known && x in s1.pair.clients && x.id in Ids(known);
    }
  }

  lemma StaleDevicesGo(s: State, active: set<string>)
    requires Coherent(s)
    ensures var r := RemoveDevices(s, s.pair.devices, active);
            && Coherent(r) && r.pair.clients == s.pair.clients
            && (AlwaysContained(s) && (forall c :: c in s.pair.clients ==> c.device in active) ==> AlwaysContained(r))
            && (forall x :: x in r.pair.devices <==> x in s.pair.devices && x.serial in active)
  {
    RemoveDevicesKeeps(s, s.pair.devices, active);
    assert forall x :: x in s.pair.devices ==> x.serial in Serials(s.pair.devices);
  }

  lemma HeadIsMember<T>(s: seq<T>)
    ensures |s| == 0 || s[0] in s
  {
  }

  lemma ClearKeeps(s: State)
    requires Coherent(s)
    ensures var r := ClearMirrors(s);
            Coherent(r) && (AlwaysContained(s) ==> AlwaysContained(r)) && |r.pair.clients| == 0 && |r.pair.devices| == 0
  {
    var s1 := RemoveClients(s, s.pair.clients, {});
    RemoveClientsKeeps(s, s.pair.clients, {});
    assert forall x :: x in s.pair.clients ==> x.id in Ids(s.pair.clients);
    HeadIsMember(s1.pair.clients);
    StaleDevicesGo(s1, {});
    var r := ClearMirrors(s);
    HeadIsMember(r.pair.devices);
  }

  // ---------------------------------------------------------------- whole runs

  lemma DoKeepsCoherent(config: Config, s: State, step: Step)
    requires Coherent(s)
    ensures Coherent(Do(config, s, step))
  {
    match step
    case Snapshot(ds, cs) =>
      var enabled := EnabledDevices(config, ds);
      var s1 := AddDevices(s, EnabledDevices(config, enabled));
      AddDevicesKeeps(s, EnabledDevices(config, enabled));
      SyncClientsKeeps(s1, cs);
      StaleDevicesGo(SyncClients(s1, cs), Serials(enabled));
    case DevicesResult(ds) => AddDevicesKeeps(s, EnabledDevices(config, ds));
    case ClientsResult(cs) => AddClientsKeeps(s, KnownClients(s.pair, cs));
    case DaemonDisconnected => ClearKeeps(s);
    case Select(id) =>
      var i := FindClient(s.pair.clients, id);
      if i < |s.pair.clients| { assert s.pair.clients[i] in s.pair.clients; }
  }

  lemma {:induction false} RunKeepsCoherent(config: Config, s: State, steps: seq<Step>)
    requires Coherent(s)
    ensures Coherent(Run(config, s, steps))
    decreases |steps|
  {
    if steps != [] {
      DoKeepsCoherent(config, s, steps[0]);
      RunKeepsCoherent(config, Do(config, s, steps[0]), steps[1..]);
    }
  }

  /** Over every run, replaying the emitted events rebuilds exactly both mirrors; every
      event announced a real change; and the selected client is mirrored. */
  lemma ReplayRebuildsMirrors(config: Config, start: State, steps: seq<Step>)
    requires Initial(start)
    ensures var s := Run(config, start, steps);
            && Replay(s.events) == s.pair
            && (forall i :: 0 <= i < |s.events| ==> Fitting(Replay(s.events[..i]), s.events[i]))
            && (s.selected.Some? ==> HasClient(s.pair, s.selected.value))
  {
    RunKeepsCoherent(config, start, steps);
  }

  // ---------------------------------------------------------------- containment

  /** What the daemon promises: a serial always has the same system, an id always the same
      device, and a snapshot lists the device of every client it lists. */
  datatype World = World(osOf: string -> Os, deviceOf: int -> string)

  predicate DevicesFit(w: World, ds: seq<Device>) { forall d :: d in ds ==> d.os == w.osOf(d.serial) }
  predicate ClientsFit(w: World, cs: seq<Client>) { forall c :: c in cs ==> c.device == w.deviceOf(c.id) }

  predicate Promised(w: World, step: Step) {
    match step
    case Snapshot(ds, cs) =>
      DevicesFit(w, ds) && ClientsFit(w, cs) && forall c :: c in cs ==> c.device in Serials(ds)
    case DevicesResult(ds) => DevicesFit(w, ds)
    case ClientsResult(cs) => ClientsFit(w, cs)
    case _ => true
  }

  /** Only that an id always has the same device. */
  predicate IdsFixed(w: World, step: Step) {
    match step
    case Snapshot(_, cs) => ClientsFit(w, cs)
    case ClientsResult(cs) => ClientsFit(w, cs)
    case _ => true
  }

  /** A snapshot lists as enabled the device of every client it lists for a mirrored device. */
  predicate ListsDevices(config: Config, s: State, step: Step) {
    step.Snapshot? ==>
      forall c :: c in step.clients && HasDevice(s.pair, c.device) ==>
        c.device in Serials(EnabledDevices(config, step.devices))
  }

  predicate ListsDevicesRun(config: Config, s: State, steps: seq<Step>)
    decreases |steps|
  {
    steps == [] || (ListsDevices(config, s, steps[0]) && ListsDevicesRun(config, Do(config, s, steps[0]), steps[1..]))
  }

  predicate Inv(w: World, s: State) { Coherent(s) && AlwaysContained(s) && ClientsFit(w, s.pair.clients) }

  lemma SnapshotKeepsInv(config: Config, w: World, s: State, ds: seq<Device>, cs: seq<Client>)
    requires Inv(w, s) && ClientsFit(w, cs) && ListsDevices(config, s, Snapshot(ds, cs))
    ensures Inv(w, ApplySnapshot(config, s, ds, cs))
  {
    var enabled := EnabledDevices(config, ds);
    var again := EnabledDevices(config, enabled);
    var s1 := AddDevices(s, again);
    AddDevicesKeeps(s, again);
    var s2 := SyncClients(s1, cs);
    SyncClientsKeeps(s1, cs);
    forall c | c in s2.pair.clients ensures c.device in Serials(enabled) && c.device == w.deviceOf(c.id) {
      var y :| y in cs && y.id == c.id && HasDevice(s1.pair, y.device);
      var d :| d in s1.pair.devices && d.serial == y.device;
      assert d in s.pair.devices || d in again;
      assert d in s.pair.devices ==> HasDevice(s.pair, y.device);
    }
    StaleDevicesGo(s2, Serials(enabled));
  }

  lemma DoKeepsInv(config: Config, w: World, s: State, step: Step)
    requires Inv(w, s) && IdsFixed(w, step) && ListsDevices(config, s, step)
    ensures Inv(w, Do(config, s, step))
  {
    DoKeepsCoherent(config, s, step);
    match step
    case Snapshot(ds, cs) => SnapshotKeepsInv(config, w, s, ds, cs);
    case DevicesResult(ds) => AddDevicesKeeps(s, EnabledDevices(config, ds));
    case ClientsResult(cs) => AddClientsKeeps(s, KnownClients(s.pair, cs));
    case DaemonDisconnected => ClearKeeps(s);
    case Select(id) =>
  }

  lemma {:induction false} RunKeepsInv(config: Config, w: World, s: State, steps: seq<Step>)
    requires Inv(w, s) && ListsDevicesRun(config, s, steps) && forall i :: 0 <= i < |steps| ==> IdsFixed(w, steps[i])
    ensures Inv(w, Run(config, s, steps))
    decreases |steps|
  {
    if steps != [] {
      DoKeepsInv(config, w, s, steps[0]);
      RunKeepsInv(config, w, Do(config, s, steps[0]), steps[1..]);
    }
  }

  lemma InitialHolds(w: World, s: State)
    requires Initial(s)
    ensures Inv(w, s)
  {
    assert forall i :: 0 <= i <= |s.events| ==> s.events[..i] == s.events;
  }

  // ---------------------------------------------------------------- when the daemon keeps its promises

  /** The mirrored devices are enabled and have the systems they always have. */
  predicate Familiar(config: Config, w: World, s: State) {
    DevicesFit(w, s.pair.devices) && forall d :: d in s.pair.devices ==> Enabled(config, d)
  }

  lemma PromiseLists(config: Config, w: World, s: State, step: Step)
    requires Familiar(config, w, s) && Promised(w, step)
    ensures ListsDevices(config, s, step)
  {
    if step.Snapshot? {
      forall c | c in step.clients && HasDevice(s.pair, c.device)
        ensures c.device in Serials(EnabledDevices(config, step.devices))
      {
        var d :| d in s.pair.devices && d.serial == c.device;
        var x :| x in step.devices && x.serial == c.device;
        assert x in EnabledDevices(config, step.devices);
      }
    }
  }

  lemma DoKeepsFamiliar(config: Config, w: World, s: State, step: Step)
    requires Coherent(s) && Familiar(config, w, s) && Promised(w, step)
    ensures Familiar(config, w, Do(config, s, step))
  {
    match step
    case Snapshot(ds, cs) =>
      var enabled := EnabledDevices(config, ds);
      var s1 := AddDevices(s, EnabledDevices(config, enabled));
      AddDevicesKeeps(s, EnabledDevices(config, enabled));
      SyncClientsKeeps(s1, cs);
      StaleDevicesGo(SyncClients(s1, cs), Serials(enabled));
    case DevicesResult(ds) => AddDevicesKeeps(s, EnabledDevices(config, ds));
    case ClientsResult(cs) => AddClientsKeeps(s, KnownClients(s.pair, cs));
    case DaemonDisconnected => ClearKeeps(s);
    case Select(id) =>
  }

  lemma {:induction false} PromisedRunLists(config: Config, w: World, s: State, steps: seq<Step>)
    requires Coherent(s) && Familiar(config, w, s) && forall k :: 0 <= k < |steps| ==> Promised(w, steps[k])
    ensures ListsDevicesRun(config, s, steps)
    decreases |steps|
  {
    if steps != [] {
      PromiseLists(config, w, s, steps[0]);
      DoKeepsCoherent(config, s, steps[0]);
      DoKeepsFamiliar(config, w, s, steps[0]);
      PromisedRunLists(config, w, Do(config, s, steps[0]), steps[1..]);
    }
  }

  /** Under those promises, after every single event of every run, each connected client's
      device is connected: devices are announced before their clients and taken back after. */
  lemma ClientsNeverOutliveDevices(config: Config, w: World, start: State, steps: seq<Step>, i: nat)
    requires Initial(start) && forall k :: 0 <= k < |steps| ==> Promised(w, steps[k])
    requires i <= |Run(config, start, steps).events|
    ensures Contained(Replay(Run(config, start, steps).events[..i]))
  {
    InitialHolds(w, start);
    PromisedRunLists(config, w, start, steps);
    RunKeepsInv(config, w, start, steps);
  }

  // ---------------------------------------------------------------- exactly when

  predicate ContainedAfter(config: Config, s: State, steps: seq<Step>, k: nat)
    requires k <= |steps|
  {
    AlwaysContained(Run(config, s, steps[..k]))
  }

  /** With ids fixed to devices, and nothing else promised: each connected client's device is
      connected after every event of every prefix of a run iff each snapshot, in the state it
      meets, lists as enabled the device of every client it lists for a mirrored device. */
  lemma ContainedThroughoutIff(config: Config, w: World, start: State, steps: seq<Step>)
    requires Initial(start) && forall k :: 0 <= k < |steps| ==> IdsFixed(w, steps[k])
    ensures (forall k :: 0 <= k <= |steps| ==> ContainedAfter(config, start, steps, k)) <==>
            ListsDevicesRun(config, start, steps)
  {
    InitialHolds(w, start);
    ContainedThroughoutIffFrom(config, w, start, steps);
  }

  lemma {:induction false} ContainedThroughoutIffFrom(config: Config, w: World, s: State, steps: seq<Step>)
    requires Inv(w, s) && forall k :: 0 <= k < |steps| ==> IdsFixed(w, steps[k])
    ensures (forall k :: 0 <= k <= |steps| ==> ContainedAfter(config, s, steps, k)) <==> ListsDevicesRun(config, s, steps)
    decreases |steps|
  {
    if steps == [] {
      assert steps[..0] == [];
    } else {
      var t, rest := Do(config, s, steps[0]), steps[1..];
      PrefixesOf(config, s, steps);
      if ListsDevices(config, s, steps[0]) {
        DoKeepsInv(config, w, s, steps[0]);
        ContainedThroughoutIffFrom(config, w, t, rest);
      } else {
        SnapshotContainedIff(config, w, s, steps[0].devices, steps[0].clients);
        assert rest[..0] == [] && !ContainedAfter(config, t, rest, 0);
      }
    }
  }

  lemma PrefixesOf(config: Config, s: State, steps: seq<Step>)
    requires steps != [] && AlwaysContained(s)
    ensures (forall k :: 0 <= k <= |steps| ==> ContainedAfter(config, s, steps, k)) <==>
            (forall k :: 0 <= k <= |steps| - 1 ==> ContainedAfter(config, Do(config, s, steps[0]), steps[1..], k))
  {
    var t, rest := Do(config, s, steps[0]), steps[1..];
    forall k | 0 <= k < |steps| ensures ContainedAfter(config, s, steps, k + 1) <==> ContainedAfter(config, t, rest, k) {
      assert steps[..k + 1][1..] == rest[..k];
    }
    assert steps[..0] == [];
    forall k | 0 <= k <= |steps| && (forall j :: 0 <= j <= |rest| ==> ContainedAfter(config, t, rest, j))
      ensures ContainedAfter(config, s, steps, k)
    {
      if k > 0 {
        assert ContainedAfter(config, t, rest, k - 1);
      }
    }
    forall k | 0 <= k <= |rest| && (forall j :: 0 <= j <= |steps| ==> ContainedAfter(config, s, steps, j))
      ensures ContainedAfter(config, t, rest, k)
    {
      assert ContainedAfter(config, s, steps, k + 1);
    }
  }

  predicate KnownTo(p: Pair, enabled: seq<Device>, serial: string) {
    HasDevice(p, serial) || serial in Serials(enabled)
  }

  /** What a snapshot leaves, in terms of what went in: exactly the devices it lists as
      enabled, and exactly the clients it lists for a device that is mirrored or listed as
      enabled; whatever was mirrored already stays as it was. */
  lemma SnapshotLeaves(config: Config, s: State, ds: seq<Device>, cs: seq<Client>)
    requires Coherent(s)
    ensures var r, enabled := ApplySnapshot(config, s, ds, cs).pair, EnabledDevices(config, ds);
            && (forall x :: HasDevice(r, x) <==> x in Serials(enabled))
            && (forall d :: d in r.devices ==> d in s.pair.devices || d in enabled)
            && (forall d :: d in s.pair.devices && d.serial in Serials(enabled) ==> d in r.devices)
            && (forall c :: c in r.clients ==>
                  (c in s.pair.clients || c in cs) && exists y :: y in cs && y.id == c.id && KnownTo(s.pair, enabled, y.device))
            && (forall y :: y in cs && KnownTo(s.pair, enabled, y.device) ==> HasClient(r, y.id))
            && (forall c, y :: c in s.pair.clients && y in cs && y.id == c.id && KnownTo(s.pair, enabled, y.device) ==> c in r.clients)
  {
    var enabled := EnabledDevices(config, ds);
    var again := EnabledDevices(config, enabled);
    var s1 := AddDevices(s, again);
    AddDevicesKeeps(s, again);
    var s2 := SyncClients(s1, cs);
    SyncClientsKeeps(s1, cs);
    StaleDevicesGo(s2, Serials(enabled));
    ActiveRemain(s1, enabled, RemoveDevices(s2, s2.pair.devices, Serials(enabled)));
    KnownAfterAdding(config, s, ds);
    forall c | c in s2.pair.clients ensures exists y :: y in cs && y.id == c.id && KnownTo(s.pair, enabled, y.device) {
      var y :| y in cs && y.id == c.id && HasDevice(s1.pair, y.device);
      assert KnownTo(s.pair, enabled, y.device);
    }
    assert ApplySnapshot(config, s, ds, cs).pair.clients == s2.pair.clients;
    forall y | y in cs && KnownTo(s.pair, enabled, y.device) ensures HasClient(ApplySnapshot(config, s, ds, cs).pair, y.id) {
      assert HasDevice(s1.pair, y.device);
      var x :| x in s2.pair.clients && x.id == y.id;
    }
  }

  lemma KnownAfterAdding(config: Config, s: State, ds: seq<Device>)
    requires Coherent(s)
    ensures var enabled := EnabledDevices(config, ds);
            var s1 := AddDevices(s, EnabledDevices(config, enabled));
            forall x :: HasDevice(s1.pair, x) <==> KnownTo(s.pair, enabled, x)
  {
    var enabled := EnabledDevices(config, ds);
    var again := EnabledDevices(config, enabled);
    var s1 := AddDevices(s, again);
    AddDevicesKeeps(s, again);
    forall x | HasDevice(s1.pair, x) ensures KnownTo(s.pair, enabled, x) {
      var d :| d in s1.pair.devices && d.serial == x;
      assert d in s.pair.devices || d in again;
    }
    forall x | KnownTo(s.pair, enabled, x) ensures HasDevice(s1.pair, x) {
      if HasDevice(s.pair, x) {
        var d :| d in s.pair.devices && d.serial == x;
        assert d in s1.pair.devices;
      } else {
        var d :| d in enabled && d.serial == x;
        assert d in again;
      }
    }
  }

  /** What an answer to a connect call adds: the enabled devices listed, or the clients listed
      for mirrored devices; nothing is removed or changed. */
  lemma ResultsAdd(config: Config, s: State, ds: seq<Device>, cs: seq<Client>)
    requires Coherent(s)
    ensures var r := Do(config, s, DevicesResult(ds)).pair;
            && r.clients == s.pair.clients && (forall d :: d in s.pair.devices ==> d in r.devices)
            && forall x :: HasDevice(r, x) <==> KnownTo(s.pair, EnabledDevices(config, ds), x)
    ensures var r := Do(config, s, ClientsResult(cs)).pair;
            && r.devices == s.pair.devices && (forall c :: c in s.pair.clients ==> c in r.clients)
            && forall id :: HasClient(r, id) <==>
                 HasClient(s.pair, id) || exists c :: c in cs && c.id == id && HasDevice(s.pair, c.device)
  {
    AddDevicesKeeps(s, EnabledDevices(config, ds));
    var r := AddDevices(s, EnabledDevices(config, ds)).pair;
    forall x ensures HasDevice(r, x) <==> KnownTo(s.pair, EnabledDevices(config, ds), x) {
      if HasDevice(s.pair, x) {
        var d :| d in s.pair.devices && d.serial == x;
        assert d in r.devices;
      }
    }
    var known := KnownClients(s.pair, cs);
    AddClientsKeeps(s, known);
    var q := AddClients(s, known).pair;
    forall id ensures HasClient(q, id) <==> HasClient(s.pair, id) || exists c :: c in cs && c.id == id && HasDevice(s.pair, c.device) {
      if HasClient(s.pair, id) {
        var c :| c in s.pair.clients && c.id == id;
        assert c in q.clients;
      }
      if c :| c in cs && c.id == id && HasDevice(s.pair, c.device) {
        assert c in known;
      }
    }
  }

  /** Each family of systems has its own switch. */
  lemma EnabledBySystem(serial: string, config: Config)
    ensures Enabled(config, Device(serial, Android)) == config.android
    ensures Enabled(config, Device(serial, IOS)) == config.ios
    ensures Enabled(config, Device(serial, Harmony)) == config.harmony
    ensures forall os :: os in {Mac, Windows, Linux} ==> Enabled(config, Device(serial, os)) == config.desktop
    ensures Enabled(config, Device(serial, Network)) == config.network
    ensures Enabled(config, Device(serial, OtherOs))
  {
  }

  // ---------------------------------------------------------------- the selection

  lemma {:induction false} AddDevicesKeepSelection(s: State, ds: seq<Device>)
    ensures AddDevices(s, ds).selected == s.selected
    decreases |ds|
  {
    if |ds| > 0 { AddDevicesKeepSelection(AddDevice(s, ds[0]), ds[1..]); }
  }

  lemma {:induction false} AddClientsKeepSelection(s: State, cs: seq<Client>)
    ensures AddClients(s, cs).selected == s.selected
    decreases |cs|
  {
    if |cs| > 0 { AddClientsKeepSelection(AddClient(s, cs[0]), cs[1..]); }
  }

  lemma {:induction false} RemoveDevicesKeepSelection(s: State, ds: seq<Device>, active: set<string>)
    ensures RemoveDevices(s, ds, active).selected == s.selected
    decreases |ds|
  {
    if |ds| > 0 {
      RemoveDevicesKeepSelection(if ds[0].serial in active then s else RemoveDevice(s, ds[0].serial), ds[1..], active);
    }
  }

  /** What is left of a selection when only the clients of p are. */
  function Surviving(selected: Option<int>, p: Pair): (r: Option<int>) {
    if selected.Some? && FindClient(p.clients, selected.value) < |p.clients| then selected else None
  }

  lemma FoundIffHas(p: Pair, id: int)
    ensures FindClient(p.clients, id) < |p.clients| <==> HasClient(p, id)
  {
    if c :| c in p.clients && c.id == id {
      var j :| 0 <= j < |p.clients| && p.clients[j] == c;
    }
  }

  lemma {:induction false} RemoveClientsSelection(s: State, cs: seq<Client>, active: set<int>)
    requires Coherent(s)
    ensures var r := RemoveClients(s, cs, active);
            r.selected == Surviving(s.selected, r.pair)
    decreases |cs|
  {
    RemoveClientsKeeps(s, cs, active);
    var r := RemoveClients(s, cs, active);
    if s.selected.Some? {
      FoundIffHas(s.pair, s.selected.value);
      FoundIffHas(r.pair, s.selected.value);
    }
    if |cs| > 0 {
      var t := if cs[0].id in active then s else RemoveClient(s, cs[0].id);
      RemoveClientKeeps(s, cs[0].id);
      RemoveClientsKeeps(t, cs[1..], active);
      RemoveClientsSelection(t, cs[1..], active);
    }
  }

  /** A step sets the selection iff it selects a mirrored client, and otherwise loses it iff
      the client goes. */
  lemma StepSelection(config: Config, s: State, step: Step)
    requires Coherent(s)
    ensures var r := Do(config, s, step);
            r.selected == if step.Select? && HasClient(s.pair, step.id) then Some(step.id) else Surviving(s.selected, r.pair)
  {
    if s.selected.Some? { FoundIffHas(s.pair, s.selected.value); }
    match step
    case Snapshot(ds, cs) => SnapshotSelection(config, s, ds, cs);
    case DevicesResult(ds) =>
      AddDevicesKeeps(s, EnabledDevices(config, ds));
      AddDevicesKeepSelection(s, EnabledDevices(config, ds));
    case ClientsResult(cs) => AddedSelection(s, KnownClients(s.pair, cs));
    case DaemonDisconnected =>
      RemoveClientsKeeps(s, s.pair.clients, {});
      RemoveClientsSelection(s, s.pair.clients, {});
      var t := RemoveClients(s, s.pair.clients, {});
      RemoveDevicesKeeps(t, t.pair.devices, {});
      RemoveDevicesKeepSelection(t, t.pair.devices, {});
    case Select(id) => FoundIffHas(s.pair, id);
  }

  lemma AddedSelection(s: State, cs: seq<Client>)
    requires Coherent(s)
    ensures var r := AddClients(s, cs);
            r.selected == s.selected == Surviving(s.selected, r.pair)
  {
    AddClientsKeeps(s, cs);
    AddClientsKeepSelection(s, cs);
    var r := AddClients(s, cs);
    if s.selected.Some? {
      var c :| c in s.pair.clients && c.id == s.selected.value;
      assert c in r.pair.clients;
      FoundIffHas(r.pair, s.selected.value);
    }
  }

  lemma SnapshotSelection(config: Config, s: State, ds: seq<Device>, cs: seq<Client>)
    requires Coherent(s)
    ensures var r := ApplySnapshot(config, s, ds, cs);
            r.selected == Surviving(s.selected, r.pair)
  {
    var enabled := EnabledDevices(config, ds);
    var again := EnabledDevices(config, enabled);
    var s1 := AddDevices(s, again);
    AddDevicesKeeps(s, again);
    AddDevicesKeepSelection(s, again);
    var known := KnownClients(s1.pair, cs);
    var s2 := AddClients(s1, KnownClients(s1.pair, known));
    AddClientsKeeps(s1, KnownClients(s1.pair, known));
    AddedSelection(s1, KnownClients(s1.pair, known));
    var s3 := RemoveClients(s2, s2.pair.clients, Ids(known));
    RemoveClientsKeeps(s2, s2.pair.clients, Ids(known));
    RemoveClientsSelection(s2, s2.pair.clients, Ids(known));
    RemoveDevicesKeeps(s3, s3.pair.devices, Serials(enabled));
    RemoveDevicesKeepSelection(s3, s3.pair.devices, Serials(enabled));
  }

  /** The last client selected while it was mirrored, unless it has gone since. */
  function Chosen(config: Config, s: State, steps: seq<Step>, chosen: Option<int>): (r: Option<int>)
    decreases |steps|
  {
    if steps == [] then chosen
    else
      var t := Do(config, s, steps[0]);
      Chosen(config, t, steps[1..],
             if steps[0].Select? && FindClient(s.pair.clients, steps[0].id) < |s.pair.clients| then Some(steps[0].id)
             else Surviving(chosen, t.pair))
  }

  /** Over every run the selection is the last client selected while mirrored and not gone since. */
  lemma SelectionIsChosen(config: Config, start: State, steps: seq<Step>)
    requires Initial(start)
    ensures Run(config, start, steps).selected == Chosen(config, start, steps, None)
  {
    SelectionIsChosenFrom(config, start, steps);
  }

  lemma {:induction false} SelectionIsChosenFrom(config: Config, s: State, steps: seq<Step>)
    requires Coherent(s)
    ensures Run(config, s, steps).selected == Chosen(config, s, steps, s.selected)
    decreases |steps|
  {
    if steps != [] {
      StepSelection(config, s, steps[0]);
      if steps[0].Select? { FoundIffHas(s.pair, steps[0].id); }
      DoKeepsCoherent(config, s, steps[0]);
      SelectionIsChosenFrom(config, Do(config, s, steps[0]), steps[1..]);
    }
  }

  // ---------------------------------------------------------------- one snapshot, and a counterexample

  /** One snapshot: the mirrors are contained after it iff every client it lists for a
      mirrored device comes with that device, enabled. */
  lemma SnapshotContainedIff(config: Config, w: World, s: State, ds: seq<Device>, cs: seq<Client>)
    requires Coherent(s) && ClientsFit(w, s.pair.clients) && ClientsFit(w, cs)
    ensures Contained(ApplySnapshot(config, s, ds, cs).pair) <==>
              forall c :: c in cs && HasDevice(s.pair, c.device) ==> c.device in Serials(EnabledDevices(config, ds))
  {
    SnapshotLeaves(config, s, ds, cs);
    ContainedIff(w, s.pair, ApplySnapshot(config, s, ds, cs).pair, EnabledDevices(config, ds), cs);
  }

  lemma ContainedIff(w: World, p: Pair, r: Pair, enabled: seq<Device>, cs: seq<Client>)
    requires ClientsFit(w, p.clients) && ClientsFit(w, cs)
    requires forall x :: HasDevice(r, x) <==> x in Serials(enabled)
    requires forall c :: c in r.clients ==>
               (c in p.clients || c in cs) && exists y :: y in cs && y.id == c.id && KnownTo(p, enabled, y.device)
    requires forall y :: y in cs && HasDevice(p, y.device) ==> HasClient(r, y.id)
    ensures Contained(r) <==> forall c :: c in cs && HasDevice(p, c.device) ==> c.device in Serials(enabled)
  {
    if Contained(r) {
      forall c | c in cs && HasDevice(p, c.device) ensures c.device in Serials(enabled) {
        var x :| x in r.clients && x.id == c.id;
        assert HasDevice(r, x.device);
      }
    }
  }

  lemma ActiveRemain(s1: State, enabled: seq<Device>, r: State)
    requires forall d :: d in enabled ==> HasDevice(s1.pair, d.serial)
    requires forall x :: x in r.pair.devices <==> x in s1.pair.devices && x.serial in Serials(enabled)
    ensures forall x :: HasDevice(r.pair, x) <==> x in Serials(enabled)
  {
    forall x | x in Serials(enabled) ensures HasDevice(r.pair, x) {
      var e :| e in enabled && e.serial == x;
      var d :| d in s1.pair.devices && d.serial == x;
      assert d in r.pair.devices;
    }
  }

  /** A client listed without its mirrored device is left connected to nothing: discover
      one enabled device, then receive a snapshot of no devices and one of its clients. */
  lemma OrphanedClient(config: Config, start: State, ds: seq<Device>, none: seq<Device>, cs: seq<Client>)
    requires Initial(start) && |ds| == 1 && Enabled(config, ds[0])
    requires |none| == 0 && |cs| == 1 && cs[0].device == ds[0].serial
    ensures !Contained(Do(config, Do(config, start, DevicesResult(ds)), Snapshot(none, cs)).pair)
  {
    DiscoverOne(config, start, ds);
    OrphanFrom(config, AddDevices(start, EnabledDevices(config, ds)), none, cs);
  }

  lemma DiscoverOne(config: Config, start: State, ds: seq<Device>)
    requires Initial(start) && |ds| == 1 && Enabled(config, ds[0])
    ensures var s := AddDevices(start, EnabledDevices(config, ds));
            Coherent(s) && |s.pair.clients| == 0 && HasDevice(s.pair, ds[0].serial)
  {
    assert ds[0] in EnabledDevices(config, ds);
    AddDevicesKeeps(start, EnabledDevices(config, ds));
  }

  lemma OrphanFrom(config: Config, s: State, none: seq<Device>, cs: seq<Client>)
    requires Coherent(s) && |s.pair.clients| == 0
    requires |none| == 0 && |cs| == 1 && HasDevice(s.pair, cs[0].device)
    ensures !Contained(ApplySnapshot(config, s, none, cs).pair)
  {
    assert cs[0] in cs;
    SnapshotContainedIff(config, World(x => OtherOs, x => cs[0].device), s, none, cs);
  }
}
