/** Client bookkeeping: every device has a ClientController, all of them share one
    PhysicalConnector, which hands out client ids and keeps the map of all clients. */
module ClientRegistry {

  const LAST_ID := 4294967294

  /** A client id; -1 stands for "ids have run out". */
  datatype Id = Id(n: int)

  /** connections and clientInfos both map a client id to its port. */
  datatype Controller = Controller(connections: map<Id, nat>, clientInfos: map<Id, nat>, ports: map<nat, bool>)
  datatype Driver = Driver(nextClientId: nat, usbClients: set<Id>)

  function CreateClientId(d: Driver): (id: Id) {
    Id(if d.nextClientId > LAST_ID then -1 else d.nextClientId + 1)
  }

  function AddConnection(d: Driver, c: Controller, port: nat): (r: (Driver, Controller)) {
    var id := CreateClientId(d);
    var d1 := if id == Id(-1) then d else d.(nextClientId := d.nextClientId + 1);
    if id in c.connections then (d1, c)
    else (d1.(usbClients := d1.usbClients + {id}),
          Controller(c.connections[id := port], c.clientInfos[id := port], c.ports[port := true]))
  }

  /** A port that is missing or zero is falsy and leaves clientInfos and ports alone. */
  function RemoveConnection(d: Driver, c: Controller, id: Id): (r: (Driver, Controller)) {
    var c1 := c.(connections := c.connections - {id});
    var c2 := if id in c.clientInfos && c.clientInfos[id] != 0
              then c1.(clientInfos := c.clientInfos - {id}, ports := c.ports[c.clientInfos[id] := false])
              else c1;
    (d.(usbClients := d.usbClients - {id}), c2)
  }

  /** Ports that lose their mark when the ids are removed. */
  function Freed(c: Controller, ids: set<Id>): (r: set<nat>) {
    set id | id in ids && id in c.clientInfos && c.clientInfos[id] != 0 :: c.clientInfos[id]
  }

  /** The removal of many connections at once, in whatever order. */
  function RemoveAll(d: Driver, c: Controller, ids: set<Id>): (r: (Driver, Controller)) {
    var gone := set id | id in ids && id in c.clientInfos && c.clientInfos[id] != 0;
    (d.(usbClients := d.usbClients - ids),
     Controller(c.connections - ids, c.clientInfos - gone,
                map p | p in c.ports.Keys + Freed(c, ids) :: if p in Freed(c, ids) then false else c.ports[p]))
  }

  lemma RemoveAllNone(d: Driver, c: Controller)
    ensures RemoveAll(d, c, {}) == (d, c)
  {
    var r := RemoveAll(d, c, {});
    assert Freed(c, {}) == {} && d.usbClients - {} == d.usbClients;
    assert r.1.connections == c.connections && r.1.clientInfos == c.clientInfos && r.1.ports == c.ports;
  }

  /** Removing one more is the same as removing it together with the others. */
  lemma RemoveAllStep(d: Driver, c: Controller, ids: set<Id>, id: Id)
    requires id !in ids
    ensures var r := RemoveAll(d, c, ids);
            RemoveConnection(r.0, r.1, id) == RemoveAll(d, c, ids + {id})
  {
    var r := RemoveAll(d, c, ids);
    var q, t := RemoveConnection(r.0, r.1, id), RemoveAll(d, c, ids + {id});
    assert Freed(c, ids + {id}) == Freed(c, ids) + Freed(c, {id});
    assert q.0 == t.0;
    assert q.1.connections == t.1.connections;
    assert q.1.clientInfos == t.1.clientInfos;
    assert q.1.ports.Keys == t.1.ports.Keys;
    assert q.1.ports == t.1.ports;
  }

  // ---------------------------------------------------------------- the objects

  method Any<T>(keys: set<T>) returns (id: T)
    requires keys != {}
    ensures id in keys
  {
    id :| id in keys;
  }

  class PhysicalConnector {
    var nextClientId: nat
    var usbClients: set<Id>

    ghost function View(): (d: Driver)
      reads this
    {
      Driver(nextClientId, usbClients)
    }

    constructor ()
      ensures View() == Driver(0, {})
    {
      nextClientId, usbClients := 0, {};
    }

    method CreateClientId() returns (id: Id)
      modifies this`nextClientId
      ensures old(nextClientId) > LAST_ID ==> id == Id(-1) && nextClientId == old(nextClientId)
      ensures old(nextClientId) <= LAST_ID ==> id == Id(nextClientId) && nextClientId == old(nextClientId) + 1
    {
      if nextClientId > 4294967294 {
        return Id(-1);
      }
      nextClientId := nextClientId + 1;
      return Id(nextClientId);
    }

    method RegisterUsbClient(id: Id)
      modifies this`usbClients
      ensures usbClients == old(usbClients) + {id}
    {
      if id in usbClients {
        return;
      }
      usbClients := usbClients + {id};
    }

    method UnregisterUsbClient(id: Id)
      modifies this`usbClients
      ensures usbClients == old(usbClients) - {id}
    {
      if id !in usbClients {
        return;
      }
      usbClients := usbClients - {id};
    }
  }

  class ClientController {
    const driver: PhysicalConnector
    var connections: map<Id, nat>
    var clientInfos: map<Id, nat>
    var ports: map<nat, bool>

    ghost function View(): (c: Controller)
      reads this
    {
      Controller(connections, clientInfos, ports)
    }

    constructor (driver: PhysicalConnector, devicePorts: set<nat>)
      ensures this.driver == driver && View() == Controller(map[], map[], map p | p in devicePorts :: false)
    {
      this.driver := driver;
      connections, clientInfos, ports := map[], map[], map p | p in devicePorts :: false;
    }

    method AddClient(port: nat) returns (id: Id)
      modifies this, driver
      ensures (driver.View(), View()) == AddConnection(old(driver.View()), old(View()), port)
      ensures id == CreateClientId(old(driver.View()))
    {
      id := driver.CreateClientId();
      if id in connections {
        return;
      }
      connections := connections[id := port];
      ports := ports[port := true];
      clientInfos := clientInfos[id := port];
      driver.RegisterUsbClient(id);
    }

    method RemoveClient(id: Id)
      modifies this, driver
      ensures (driver.View(), View()) == RemoveConnection(old(driver.View()), old(View()), id)
    {
      if id in connections {
        connections := connections - {id};
      }
      if id in clientInfos && clientInfos[id] != 0 {
        ports := ports[clientInfos[id] := false];
        clientInfos := clientInfos - {id};
      }
      assert id !in old(connections) ==> old(connections) - {id} == old(connections);
      driver.UnregisterUsbClient(id);
    }

    method RemoveOneMore(ghost d: Driver, ghost c: Controller, ghost done: set<Id>, id: Id)
      requires id !in done && (driver.View(), View()) == RemoveAll(d, c, done)
      modifies this, driver
      ensures (driver.View(), View()) == RemoveAll(d, c, done + {id})
    {
      RemoveAllStep(d, c, done, id);
      RemoveClient(id);
    }

    /** closeAllConnection: one removal per key, in any order. */
    method CloseAllConnection()
      modifies this, driver
      ensures (driver.View(), View()) == RemoveAll(old(driver.View()), old(View()), old(connections).Keys)
    {
      var keys := connections.Keys;
      ghost var all := keys;
      RemoveAllNone(driver.View(), View());
      while |keys| > 0
        invariant keys <= all
        invariant (driver.View(), View()) == RemoveAll(old(driver.View()), old(View()), all - keys)
        decreases |keys|
      {
        var id := Any(keys);
        RemoveOneMore(old(driver.View()), old(View()), all - keys, id);
        assert all - (keys - {id}) == all - keys + {id};
        keys := keys - {id};
      }
      assert all - keys == all;
    }
  }

  // ---------------------------------------------------------------- the whole system

  datatype State = State(driver: Driver, controllers: seq<Controller>, issued: seq<Id>)

  datatype Step = Add(k: nat, port: nat) | Remove(k: nat, id: Id) | Close(k: nat)

  function Do(s: State, step: Step): (r: State) {
    if step.k >= |s.controllers| then s
    else
      var c := s.controllers[step.k];
      var r := match step
               case Add(_, port) => AddConnection(s.driver, c, port)
               case Remove(_, id) => RemoveConnection(s.driver, c, id)
               case Close(_) => RemoveAll(s.driver, c, c.connections.Keys);
      State(r.0, s.controllers[step.k := r.1],
            if step.Add? then s.issued + [CreateClientId(s.driver)] else s.issued)
  }

  function Run(s: State, steps: seq<Step>): (r: State)
    decreases |steps|
  {
    if steps == [] then s else Run(Do(s, steps[0]), steps[1..])
  }

  predicate Marked(c: Controller, port: nat) { port in c.ports && c.ports[port] }

  /** The live ids of a port. */
  function Live(c: Controller, port: nat): (r: set<Id>) {
    set id | id in c.clientInfos && c.clientInfos[id] == port
  }

  /** A port is marked connected iff exactly one live id maps to it. */
  ghost predicate MarksExact(c: Controller) { forall p :: Marked(c, p) <==> |Live(c, p)| == 1 }

  /** What the devices and the adapters guarantee: ports are positive, ids last, and a
      controller removes its own ids or ids nobody has. */
  predicate Plausible(s: State, step: Step) {
    step.k < |s.controllers| ==>
      match step
      case Add(_, port) => port > 0 && s.driver.nextClientId <= LAST_ID
      case Remove(k, id) => id in s.controllers[k].connections || id !in s.driver.usbClients
      case Close(_) => true
  }

  predicate PlausibleRun(s: State, steps: seq<Step>)
    decreases |steps|
  {
    steps == [] || (Plausible(s, steps[0]) && PlausibleRun(Do(s, steps[0]), steps[1..]))
  }

  /** The step connects a port that is marked connected. */
  predicate HitsMark(s: State, step: Step) {
    step.Add? && step.k < |s.controllers| && Marked(s.controllers[step.k], step.port)
  }

  /** No step of the run does: what the scan guarantees, which connects unmarked ports only. */
  predicate SparesMarks(s: State, steps: seq<Step>)
    decreases |steps|
  {
    steps == [] || (!HitsMark(s, steps[0]) && SparesMarks(Do(s, steps[0]), steps[1..]))
  }

  ghost predicate ControllerInv(d: Driver, c: Controller) {
    && c.connections == c.clientInfos
    && (forall id :: id in c.clientInfos ==> 1 <= id.n <= d.nextClientId && c.clientInfos[id] > 0)
  }

  /** No two live ids share a port, and the marks say which ports have one. */
  ghost predicate MarksInv(c: Controller) {
    && (forall i, j :: i in c.clientInfos && j in c.clientInfos && c.clientInfos[i] == c.clientInfos[j] ==> i == j)
    && (forall p :: Marked(c, p) <==> exists id :: id in c.clientInfos && c.clientInfos[id] == p)
  }

  /** The driver's clients are the disjoint union of the controllers'. */
  ghost predicate Partitioned(d: Driver, cs: seq<Controller>) {
    && (forall k, l :: 0 <= k < l < |cs| ==> cs[k].connections.Keys !! cs[l].connections.Keys)
    && (forall id :: id in d.usbClients <==> exists k :: 0 <= k < |cs| && id in cs[k].connections)
  }

  ghost predicate ControllersInv(d: Driver, cs: seq<Controller>) {
    forall k :: 0 <= k < |cs| ==> ControllerInv(d, cs[k])
  }

  ghost predicate Fresh(issued: seq<Id>, last: nat) {
    && (forall i :: 0 <= i < |issued| ==> 1 <= issued[i].n <= last)
    && (forall i, j :: 0 <= i < j < |issued| ==> issued[i].n < issued[j].n)
  }

  ghost predicate Inv(s: State) {
    ControllersInv(s.driver, s.controllers) && Partitioned(s.driver, s.controllers) && Fresh(s.issued, s.driver.nextClientId)
  }

  lemma MarksAreExact(c: Controller)
    requires MarksInv(c)
    ensures MarksExact(c)
  {
    forall p ensures Marked(c, p) <==> |Live(c, p)| == 1 {
      if Marked(c, p) {
        var id :| id in c.clientInfos && c.clientInfos[id] == p;
        assert Live(c, p) == {id};
      } else {
        assert Live(c, p) == {};
      }
    }
  }

  lemma AddKeepsController(d: Driver, c: Controller, port: nat)
    requires ControllerInv(d, c) && port > 0 && d.nextClientId <= LAST_ID
    ensures var r := AddConnection(d, c, port);
            && ControllerInv(r.0, r.1)
            && r.1.connections.Keys == c.connections.Keys + {Id(d.nextClientId + 1)}
            && r.0 == Driver(d.nextClientId + 1, d.usbClients + {Id(d.nextClientId + 1)})
  {
    assert CreateClientId(d) !in c.clientInfos;
  }

  lemma AddKeepsMarks(d: Driver, c: Controller, port: nat)
    requires ControllerInv(d, c) && MarksInv(c) && port > 0 && d.nextClientId <= LAST_ID && !Marked(c, port)
    ensures MarksInv(AddConnection(d, c, port).1)
  {
    var id, t := CreateClientId(d), AddConnection(d, c, port).1;
    assert id !in c.clientInfos;
    forall p ensures Marked(t, p) <==> exists i :: i in t.clientInfos && t.clientInfos[i] == p {
      if p == port {
        assert t.clientInfos[id] == p;
      } else if Marked(c, p) {
        var i :| i in c.clientInfos && c.clientInfos[i] == p;
        assert t.clientInfos[i] == p;
      }
    }
  }

  lemma RemoveAllKeepsController(d: Driver, c: Controller, ids: set<Id>)
    requires ControllerInv(d, c)
    ensures var r := RemoveAll(d, c, ids);
            ControllerInv(r.0, r.1) && r.1.connections.Keys == c.connections.Keys - ids
  {
    var t := RemoveAll(d, c, ids).1;
    assert t.clientInfos == c.clientInfos - ids;
  }

  lemma RemoveAllKeepsMarks(d: Driver, c: Controller, ids: set<Id>)
    requires ControllerInv(d, c) && MarksInv(c)
    ensures MarksInv(RemoveAll(d, c, ids).1)
  {
    var t := RemoveAll(d, c, ids).1;
    assert t.clientInfos == c.clientInfos - ids;
    forall p ensures Marked(t, p) <==> exists i :: i in t.clientInfos && t.clientInfos[i] == p {
      if Marked(c, p) {
        var i :| i in c.clientInfos && c.clientInfos[i] == p;
        assert i in ids ==> p in Freed(c, ids);
        assert i in t.clientInfos <==> i !in ids;
      }
    }
  }

  lemma RemoveIsRemoveAll(d: Driver, c: Controller, id: Id)
    ensures RemoveConnection(d, c, id) == RemoveAll(d, c, {id})
  {
    RemoveAllNone(d, c);
    RemoveAllStep(d, c, {}, id);
    assert {} + {id} == {id};
  }

  lemma OthersStayDisjoint(s: State, k: nat, c: Controller, plus: set<Id>, minus: set<Id>, o: nat)
    requires Inv(s) && k < |s.controllers| && o < |s.controllers| && o != k
    requires c.connections.Keys == s.controllers[k].connections.Keys + plus - minus
    requires plus !! s.driver.usbClients
    ensures c.connections.Keys !! s.controllers[o].connections.Keys
  {
    assert s.controllers[k].connections.Keys !! s.controllers[o].connections.Keys;
    assert forall id :: id in s.controllers[o].connections.Keys ==> id in s.controllers[o].connections && id in s.driver.usbClients;
  }

  /** A step changes one controller's ids by the same amount as the driver's. */
  lemma UnionKept(s: State, k: nat, d: Driver, c: Controller, plus: set<Id>, minus: set<Id>)
    requires Inv(s) && k < |s.controllers|
    requires c.connections.Keys == s.controllers[k].connections.Keys + plus - minus
    requires d.usbClients == s.driver.usbClients + plus - minus
    requires plus !! s.driver.usbClients && plus !! minus
    requires minus * s.driver.usbClients <= s.controllers[k].connections.Keys
    ensures var cs := s.controllers[k := c];
            Partitioned(d, cs)
  {
    var cs := s.controllers[k := c];
    forall i, j | 0 <= i < j < |cs| ensures cs[i].connections.Keys !! cs[j].connections.Keys {
      if i == k {
        OthersStayDisjoint(s, k, c, plus, minus, j);
      } else if j == k {
        OthersStayDisjoint(s, k, c, plus, minus, i);
      }
    }
    forall id ensures id in d.usbClients <==> exists i :: 0 <= i < |cs| && id in cs[i].connections {
      if id in d.usbClients {
        if id in plus {
          assert id in cs[k].connections;
        } else {
          var i :| 0 <= i < |s.controllers| && id in s.controllers[i].connections;
          assert id in cs[i].connections;
        }
      }
      if i :| 0 <= i < |cs| && id in cs[i].connections {
        if i != k {
          assert id in s.controllers[i].connections;
          assert id in s.driver.usbClients;
          assert s.controllers[k].connections.Keys !! s.controllers[i].connections.Keys;
          assert id !in minus;
        } else if id !in plus {
          assert id in s.controllers[k].connections;
        }
      }
    }
  }

  /** Putting one changed controller back. */
  lemma PutBack(s: State, k: nat, d: Driver, c: Controller, plus: set<Id>, minus: set<Id>)
    requires Inv(s) && k < |s.controllers|
    requires c.connections.Keys == s.controllers[k].connections.Keys + plus - minus
    requires d.usbClients == s.driver.usbClients + plus - minus
    requires plus !! s.driver.usbClients && plus !! minus
    requires minus * s.driver.usbClients <= s.controllers[k].connections.Keys
    requires ControllerInv(d, c) && d.nextClientId >= s.driver.nextClientId
    ensures Inv(State(d, s.controllers[k := c], s.issued))
  {
    UnionKept(s, k, d, c, plus, minus);
    var cs := s.controllers[k := c];
    forall i | 0 <= i < |cs| ensures ControllerInv(d, cs[i]) {
      if i != k {
        assert ControllerInv(s.driver, s.controllers[i]);
      }
    }
  }

  lemma AddKeepsInv(s: State, k: nat, port: nat)
    requires Inv(s) && k < |s.controllers| && Plausible(s, Add(k, port))
    ensures Inv(Do(s, Add(k, port)))
  {
    var c, d := s.controllers[k], s.driver;
    var id, r := CreateClientId(d), AddConnection(d, c, port);
    AddKeepsController(d, c, port);
    FreshId(s);
    PutBack(s, k, r.0, r.1, {id}, {});
    IssuedFresh(s.issued, d.nextClientId, id);
  }

  lemma IssuedFresh(issued: seq<Id>, last: nat, id: Id)
    requires Fresh(issued, last) && id.n == last + 1
    ensures Fresh(issued + [id], last + 1)
  {
  }

  /** Removing ids that are the controller's own, or nobody's. */
  lemma RemoveKeepsInv(s: State, k: nat, ids: set<Id>)
    requires Inv(s) && k < |s.controllers|
    requires ids * s.driver.usbClients <= s.controllers[k].connections.Keys
    ensures var r := RemoveAll(s.driver, s.controllers[k], ids);
            Inv(State(r.0, s.controllers[k := r.1], s.issued))
  {
    var c, d := s.controllers[k], s.driver;
    var r := RemoveAll(d, c, ids);
    RemoveAllKeepsController(d, c, ids);
    PutBack(s, k, r.0, r.1, {}, ids);
  }

  lemma DoKeepsInv(s: State, step: Step)
    requires Inv(s) && Plausible(s, step)
    ensures Inv(Do(s, step))
  {
    if step.k < |s.controllers| {
      match step
      case Add(k, port) => AddKeepsInv(s, k, port);
      case Remove(k, id) =>
        RemoveIsRemoveAll(s.driver, s.controllers[k], id);
        RemoveKeepsInv(s, k, {id});
      case Close(k) => RemoveKeepsInv(s, k, s.controllers[k].connections.Keys);
    }
  }

  lemma FreshId(s: State)
    requires Inv(s)
    ensures Id(s.driver.nextClientId + 1) !in s.driver.usbClients
  {
    var id := Id(s.driver.nextClientId + 1);
    forall k | 0 <= k < |s.controllers| ensures id !in s.controllers[k].connections {
      assert ControllerInv(s.driver, s.controllers[k]);
    }
  }

  lemma {:induction false} RunKeepsInv(s: State, steps: seq<Step>)
    requires Inv(s) && PlausibleRun(s, steps)
    ensures Inv(Run(s, steps))
    decreases |steps|
  {
    if steps != [] {
      DoKeepsInv(s, steps[0]);
      RunKeepsInv(Do(s, steps[0]), steps[1..]);
    }
  }

  predicate Initial(s: State) {
    && s.driver == Driver(0, {}) && |s.issued| == 0
    && forall k :: 0 <= k < |s.controllers| ==>
         var c := s.controllers[k];
         c.connections == map[] && c.clientInfos == map[] && forall p :: p in c.ports ==> !c.ports[p]
  }

  /** Over every plausible run: ids are never reused, both id maps of a controller agree, and
      the driver's clients are the disjoint union of the controllers'. */
  lemma RegistryIsConsistent(start: State, steps: seq<Step>)
    requires Initial(start) && PlausibleRun(start, steps)
    ensures var s := Run(start, steps);
            && (forall i, j :: 0 <= i < j < |s.issued| ==> s.issued[i].n < s.issued[j].n)
            && (forall k :: 0 <= k < |s.controllers| ==> s.controllers[k].connections == s.controllers[k].clientInfos)
            && Partitioned(s.driver, s.controllers)
  {
    RunKeepsInv(start, steps);
  }

  // ---------------------------------------------------------------- who is live

  /** Reference bookkeeping: how many ids were handed out, and for every controller the ports
      of its live clients. */
  datatype Book = Book(handedOut: nat, live: seq<map<Id, nat>>)

  function Note(b: Book, step: Step): (r: Book) {
    if step.k >= |b.live| then b
    else match step
      case Add(k, port) =>
        var more: map<Id, nat> := b.live[k][Id(b.handedOut + 1) := port];
        Book(b.handedOut + 1, b.live[k := more])
      case Remove(k, id) => b.(live := b.live[k := b.live[k] - {id}])
      case Close(k) => b.(live := b.live[k := map[]])
  }

  function NoteAll(b: Book, steps: seq<Step>): (r: Book)
    decreases |steps|
  {
    if steps == [] then b else NoteAll(Note(b, steps[0]), steps[1..])
  }

  predicate Shows(s: State, b: Book) {
    && s.driver.nextClientId == b.handedOut && |s.controllers| == |b.live|
    && forall k :: 0 <= k < |b.live| ==> s.controllers[k].connections == b.live[k]
  }

  lemma StepShows(s: State, b: Book, step: Step)
    requires Inv(s) && Plausible(s, step) && Shows(s, b)
    ensures Shows(Do(s, step), Note(b, step))
  {
    if step.k < |s.controllers| {
      var c := s.controllers[step.k];
      assert ControllerInv(s.driver, c);
      assert c.connections - c.connections.Keys == map[];
    }
  }

  lemma {:induction false} RunShows(s: State, b: Book, steps: seq<Step>)
    requires Inv(s) && PlausibleRun(s, steps) && Shows(s, b)
    ensures Shows(Run(s, steps), NoteAll(b, steps))
    decreases |steps|
  {
    if steps != [] {
      StepShows(s, b, steps[0]);
      DoKeepsInv(s, steps[0]);
      RunShows(Do(s, steps[0]), Note(b, steps[0]), steps[1..]);
    }
  }

  /** Over every plausible run each controller has exactly the clients that were added there and
      neither removed nor closed since, each at the port it was added with and under its own id. */
  lemma LiveClientsAreExact(start: State, steps: seq<Step>)
    requires Initial(start) && PlausibleRun(start, steps)
    ensures Shows(Run(start, steps), NoteAll(Book(0, seq(|start.controllers|, _ => map[])), steps))
  {
    RunShows(start, Book(0, seq(|start.controllers|, _ => map[])), steps);
  }

  // ---------------------------------------------------------------- marks

  ghost predicate AllMarks(s: State) { forall k :: 0 <= k < |s.controllers| ==> MarksInv(s.controllers[k]) }

  /** In every controller a port is marked iff exactly one live id maps to it. */
  ghost predicate AllExact(s: State) { forall k :: 0 <= k < |s.controllers| ==> MarksExact(s.controllers[k]) }

  ghost predicate ExactAfter(s: State, steps: seq<Step>, k: nat)
    requires k <= |steps|
  {
    AllExact(Run(s, steps[..k]))
  }

  lemma MarksGiveExact(s: State)
    requires AllMarks(s)
    ensures AllExact(s)
  {
    forall k | 0 <= k < |s.controllers| ensures MarksExact(s.controllers[k]) {
      MarksAreExact(s.controllers[k]);
    }
  }

  lemma DoKeepsMarks(s: State, step: Step)
    requires Inv(s) && Plausible(s, step) && AllMarks(s) && !HitsMark(s, step)
    ensures AllMarks(Do(s, step))
  {
    if step.k < |s.controllers| {
      var c := s.controllers[step.k];
      assert ControllerInv(s.driver, c) && MarksInv(c);
      match step
      case Add(_, port) => AddKeepsMarks(s.driver, c, port);
      case Remove(_, id) =>
        RemoveIsRemoveAll(s.driver, c, id);
        RemoveAllKeepsMarks(s.driver, c, {id});
      case Close(_) => RemoveAllKeepsMarks(s.driver, c, c.connections.Keys);
    }
  }

  /** Connecting a port keeps the marks exact iff the port was not marked. */
  lemma AddKeepsMarksIff(d: Driver, c: Controller, port: nat)
    requires ControllerInv(d, c) && MarksInv(c) && port > 0 && d.nextClientId <= LAST_ID
    ensures MarksExact(AddConnection(d, c, port).1) <==> !Marked(c, port)
  {
    var t := AddConnection(d, c, port).1;
    if Marked(c, port) {
      var id :| id in c.clientInfos && c.clientInfos[id] == port;
      var next := CreateClientId(d);
      assert {id, next} <= Live(t, port) && id != next;
      Two(Live(t, port), id, next);
      assert Marked(t, port);
    } else {
      AddKeepsMarks(d, c, port);
      MarksAreExact(t);
    }
  }

  /** Over every plausible run: a port is marked iff exactly one live id maps to it, after
      every prefix of the run, iff no step connects a marked port. */
  lemma MarksExactIff(start: State, steps: seq<Step>)
    requires Initial(start) && PlausibleRun(start, steps)
    ensures (forall k :: 0 <= k <= |steps| ==> ExactAfter(start, steps, k)) <==> SparesMarks(start, steps)
  {
    MarksExactIffFrom(start, steps);
  }

  lemma {:induction false} MarksExactIffFrom(s: State, steps: seq<Step>)
    requires Inv(s) && AllMarks(s) && PlausibleRun(s, steps)
    ensures (forall k :: 0 <= k <= |steps| ==> ExactAfter(s, steps, k)) <==> SparesMarks(s, steps)
    decreases |steps|
  {
    MarksGiveExact(s);
    if steps == [] {
      assert steps[..0] == [];
    } else {
      var t, rest := Do(s, steps[0]), steps[1..];
      PrefixesOf(s, steps);
      if HitsMark(s, steps[0]) {
        var k := steps[0].k;
        assert ControllerInv(s.driver, s.controllers[k]);
        AddKeepsMarksIff(s.driver, s.controllers[k], steps[0].port);
        assert !MarksExact(t.controllers[k]);
        assert rest[..0] == [] && !ExactAfter(t, rest, 0);
      } else {
        DoKeepsInv(s, steps[0]);
        DoKeepsMarks(s, steps[0]);
        MarksExactIffFrom(t, rest);
      }
    }
  }

  lemma PrefixesOf(s: State, steps: seq<Step>)
    requires steps != [] && AllExact(s)
    ensures (forall k :: 0 <= k <= |steps| ==> ExactAfter(s, steps, k)) <==>
            (forall k :: 0 <= k <= |steps| - 1 ==> ExactAfter(Do(s, steps[0]), steps[1..], k))
  {
    var t, rest := Do(s, steps[0]), steps[1..];
    forall k | 0 <= k < |steps| ensures ExactAfter(s, steps, k + 1) <==> ExactAfter(t, rest, k) {
      assert steps[..k + 1][1..] == rest[..k];
    }
    assert steps[..0] == [];
    forall k | 0 <= k <= |steps| && (forall j :: 0 <= j <= |rest| ==> ExactAfter(t, rest, j)) ensures ExactAfter(s, steps, k) {
      if k > 0 {
        assert ExactAfter(t, rest, k - 1);
      }
    }
    forall k | 0 <= k <= |rest| && (forall j :: 0 <= j <= |steps| ==> ExactAfter(s, steps, j)) ensures ExactAfter(t, rest, k) {
      assert ExactAfter(s, steps, k + 1);
    }
  }

  // ---------------------------------------------------------------- ids and removals

  ghost predicate Counts(s: State) {
    && s.driver.nextClientId == (if |s.issued| <= LAST_ID then |s.issued| else LAST_ID + 1)
    && forall i :: 0 <= i < |s.issued| ==> s.issued[i] == Id(if i <= LAST_ID then i + 1 else -1)
  }

  lemma {:induction false} IssuedCount(s: State, steps: seq<Step>)
    requires Counts(s)
    ensures Counts(Run(s, steps))
    decreases |steps|
  {
    if steps != [] {
      IssuedCount(Do(s, steps[0]), steps[1..]);
    }
  }

  /** Over every run, whatever is done: the ids handed out are 1, 2, 3, ... as long as the
      counter lasts and -1 from then on, so all are different iff at most 2^32 were. */
  lemma IdsDifferIff(start: State, steps: seq<Step>)
    requires Initial(start)
    ensures var ids := Run(start, steps).issued;
            && (forall i :: 0 <= i < |ids| ==> ids[i] == Id(if i <= LAST_ID then i + 1 else -1))
            && ((forall i, j :: 0 <= i < j < |ids| ==> ids[i] != ids[j]) <==> |ids| <= LAST_ID + 2)
  {
    IssuedCount(start, steps);
    var ids := Run(start, steps).issued;
    if |ids| > LAST_ID + 2 {
      assert ids[LAST_ID + 1] == ids[LAST_ID + 2];
    }
  }

  /** A removal repeated at once changes nothing, in any state. */
  lemma RemoveTwice(d: Driver, c: Controller, id: Id)
    ensures var r := RemoveConnection(d, c, id);
            RemoveConnection(r.0, r.1, id) == r
  {
    var r := RemoveConnection(d, c, id);
    var q := RemoveConnection(r.0, r.1, id);
    assert q.0 == r.0 && q.1.connections == r.1.connections;
    assert q.1.clientInfos == r.1.clientInfos;
  }

  /** An id that was handed out and is no longer live stays so, and removing it once more, at
      any controller and however much later, changes nothing. */
  lemma LateRemovalIsHarmless(start: State, before: seq<Step>, after: seq<Step>, id: Id, k: nat)
    requires Initial(start) && PlausibleRun(start, before) && PlausibleRun(Run(start, before), after)
    requires id in Run(start, before).issued && id !in Run(start, before).driver.usbClients
    ensures var t := Run(Run(start, before), after);
            id !in t.driver.usbClients && Do(t, Remove(k, id)) == t
  {
    var s := Run(start, before);
    RunKeepsInv(start, before);
    StaysDead(s, after, id);
    RunKeepsInv(s, after);
    var t := Run(s, after);
    if k < |t.controllers| {
      assert ControllerInv(t.driver, t.controllers[k]);
      assert id !in t.controllers[k].connections;
      RemoveNothing(t.driver, t.controllers[k], id);
      assert t.controllers[k := t.controllers[k]] == t.controllers;
    }
  }

  lemma RemoveNothing(d: Driver, c: Controller, id: Id)
    requires id !in c.connections && id !in c.clientInfos && id !in d.usbClients
    ensures RemoveConnection(d, c, id) == (d, c)
  {
    assert c.connections - {id} == c.connections && d.usbClients - {id} == d.usbClients;
  }

  lemma {:induction false} StaysDead(s: State, steps: seq<Step>, id: Id)
    requires id.n <= s.driver.nextClientId && id !in s.driver.usbClients && PlausibleRun(s, steps)
    ensures id !in Run(s, steps).driver.usbClients
    decreases |steps|
  {
    if steps != [] {
      StaysDead(Do(s, steps[0]), steps[1..], id);
    }
  }

  /** Without the guard: one port connected twice has two live ids, so its mark says too much. */
  lemma SamePortTwice(start: State, port: nat)
    requires Initial(start) && |start.controllers| == 1 && port > 0
    ensures var s := Do(Do(start, Add(0, port)), Add(0, port));
            Marked(s.controllers[0], port) && |Live(s.controllers[0], port)| == 2 && !MarksExact(s.controllers[0])
  {
    var s1 := Do(start, Add(0, port));
    var c := Do(s1, Add(0, port)).controllers[0];
    assert s1.controllers[0].clientInfos == map[Id(1) := port];
    assert c.clientInfos == map[Id(1) := port, Id(2) := port];
    assert Live(c, port) == {Id(1), Id(2)};
  }

  /** Port zero is taken for no port: removing its client leaves the mark and the id behind. */
  lemma PortZeroSticks(start: State)
    requires Initial(start) && |start.controllers| == 1
    ensures var c := Do(Do(start, Add(0, 0)), Remove(0, Id(1))).controllers[0];
            c.connections == map[] && c.clientInfos == map[Id(1) := 0] && Marked(c, 0)
  {
    var s1 := Do(start, Add(0, 0));
    assert s1.controllers[0].clientInfos == map[Id(1) := 0] && s1.controllers[0].connections == map[Id(1) := 0];
    assert s1.controllers[0].connections - {Id(1)} == map[];
  }

  lemma Two(s: set<Id>, a: Id, b: Id)
    requires a in s && b in s && a != b
    ensures |s| >= 2
  {
    assert |s - {a} - {b}| >= 0;
  }
}
