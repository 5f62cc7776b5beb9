/** The DebugRouterConnector object: the loops that carry out the mirror operations. */
module Connector {
  import opened Mirrors
  import opened Options

  class DebugRouterConnector {
    const config: Config
    var devices: seq<Device>
    var usbClients: seq<Client>
    var selectedClient: Option<int>
    var emitted: seq<Event>

    ghost function View(): (s: State)
      reads this
    {
      State(Pair(devices, usbClients), selectedClient, emitted)
    }

    constructor (config: Config)
      ensures Initial(View()) && this.config == config
    {
      this.config := config;
      devices, usbClients, selectedClient, emitted := [], [], None, [];
    }

    method RegisterDevice(device: Device)
      modifies this`devices, this`emitted
      ensures View() == AddDevice(old(View()), device)
    {
      if FindDevice(devices, device.serial) < |devices| {
        return;
      }
      devices := devices + [device];
      emitted := emitted + [DeviceConnected(device)];
    }

    method RegisterUsbClient(client: Client)
      modifies this`usbClients, this`emitted
      ensures View() == AddClient(old(View()), client)
    {
      if FindClient(usbClients, client.id) < |usbClients| {
        return;
      }
      usbClients := usbClients + [client];
      emitted := emitted + [ClientConnected(client)];
    }

    method UnregisterDeviceInternal(serial: string)
      modifies this`devices, this`emitted
      ensures View() == RemoveDevice(old(View()), serial)
    {
      var i := FindDevice(devices, serial);
      if i == |devices| {
        return;
      }
      var device := devices[i];
      devices := devices[..i] + devices[i + 1..];
      emitted := emitted + [DeviceDisconnected(device)];
    }

    method UnregisterUsbClientInternal(id: int)
      modifies this`usbClients, this`selectedClient, this`emitted
      ensures View() == RemoveClient(old(View()), id)
    {
      var i := FindClient(usbClients, id);
      if i == |usbClients| {
        return;
      }
      if selectedClient == Some(id) {
        selectedClient := None;
      }
      usbClients := usbClients[..i] + usbClients[i + 1..];
      emitted := emitted + [ClientDisconnected(id)];
    }

    method UpsertDeviceSnapshots(snapshots: seq<Device>)
      modifies this`devices, this`emitted
      ensures View() == AddDevices(old(View()), EnabledDevices(config, snapshots))
    {
      var enabled := EnabledDevices(config, snapshots);
      for i := 0 to |enabled|
        invariant AddDevices(View(), enabled[i..]) == AddDevices(old(View()), enabled)
      {
        RegisterDevice(enabled[i]);
        assert enabled[i..][1..] == enabled[i + 1..];
      }
    }

    method UpsertClientSnapshots(snapshots: seq<Client>)
      modifies this`usbClients, this`emitted
      ensures View() == AddClients(old(View()), KnownClients(old(View()).pair, snapshots))
    {
      var known := KnownClients(Pair(devices, usbClients), snapshots);
      for i := 0 to |known|
        invariant AddClients(View(), known[i..]) == AddClients(old(View()), known)
      {
        RegisterUsbClient(known[i]);
        assert known[i..][1..] == known[i + 1..];
      }
    }

    /** Drops the clients that are not active, visiting the keys as they were on entry. */
    method RemoveStaleClients(activeIds: set<int>)
      modifies this`usbClients, this`selectedClient, this`emitted
      ensures View() == RemoveClients(old(View()), old(usbClients), activeIds)
    {
      var keys := usbClients;
      for i := 0 to |keys|
        invariant RemoveClients(View(), keys[i..], activeIds) == RemoveClients(old(View()), keys, activeIds)
      {
        if keys[i].id !in activeIds {
          UnregisterUsbClientInternal(keys[i].id);
        }
        assert keys[i..][1..] == keys[i + 1..];
      }
    }

    method RemoveStaleDevices(activeSerials: set<string>)
      modifies this`devices, this`emitted
      ensures View() == RemoveDevices(old(View()), old(devices), activeSerials)
    {
      var keys := devices;
      for i := 0 to |keys|
        invariant RemoveDevices(View(), keys[i..], activeSerials) == RemoveDevices(old(View()), keys, activeSerials)
      {
        if keys[i].serial !in activeSerials {
          UnregisterDeviceInternal(keys[i].serial);
        }
        assert keys[i..][1..] == keys[i + 1..];
      }
    }

    method SyncClientSnapshots(snapshots: seq<Client>)
      modifies this`usbClients, this`selectedClient, this`emitted
      ensures View() == SyncClients(old(View()), snapshots)
    {
      var enabled := KnownClients(Pair(devices, usbClients), snapshots);
      UpsertClientSnapshots(enabled);
      RemoveStaleClients(Ids(enabled));
    }

    /** applySnapshot: devices first, then clients, then stale devices. */
    method ApplySnapshot(snapshotDevices: seq<Device>, snapshotClients: seq<Client>)
      modifies this`devices, this`usbClients, this`selectedClient, this`emitted
      ensures View() == Do(config, old(View()), Snapshot(snapshotDevices, snapshotClients))
    {
      var enabled := EnabledDevices(config, snapshotDevices);
      UpsertDeviceSnapshots(enabled);
      SyncClientSnapshots(snapshotClients);
      RemoveStaleDevices(Serials(enabled));
    }

    /** clearDaemonMirrors: clients before their devices. */
    method ClearDaemonMirrors()
      modifies this`devices, this`usbClients, this`selectedClient, this`emitted
      ensures View() == Do(config, old(View()), DaemonDisconnected)
    {
      RemoveStaleClients({});
      RemoveStaleDevices({});
    }
  }
}
