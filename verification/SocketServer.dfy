/** SocketServer: a pending and a current USB client while accept, open, message, close,
    error, disconnect and stop arrive in any order. Clients are numbered in accept order.
    Every handler runs under client_lock_ or on the one executor, so each is one step. */
module SocketServer {
  import opened Options
  import Callbacks = UsbClientCallbacks


  datatype Status = Disconnected | Error

  /** What the connection listener is told. */
  datatype Event =
    | Connected(client: nat)
    | Ended(client: nat, status: Status)
    | Forwarded(client: nat, message: string)

  datatype State = State(
    current: Option<nat>,   // usb_client_
    pending: Option<nat>,   // temp_usb_client_
    accepted: nat,          // clients accepted so far
    cleaner: seq<nat>,      // stops submitted to clean_executor_ and not yet run
    stopped: set<nat>,      // clients whose Stop has run
    events: seq<Event>,
    promoted: seq<nat>,     // clients in the order they became current
    taken: Option<nat>)     // the last current client that Disconnect or StopServer took away

  const INITIAL: State := State(None, None, 0, [], {}, [], [], None)

  datatype Step =
    | Accept
    | Open(client: nat)
    | Message(client: nat, message: string)
    | End(client: nat, status: Status)
    | Disconnect
    | StopServer
    | CleanerRuns

  function Without(o: Option<nat>, client: nat): (r: Option<nat>) {
    if o == Some(client) then None else o
  }

  function Members(o: Option<nat>): (r: set<nat>) {
    if o.Some? then {o.value} else {}
  }

  function Do(s: State, step: Step): (r: State) {
    match step
    case Accept =>
      s.(pending := Some(s.accepted), accepted := s.accepted + 1,
         cleaner := s.cleaner + if s.pending.Some? then [s.pending.value] else [])
    case Open(c) =>
      if s.pending != Some(c) then s
      else s.(current := Some(c),
              cleaner := s.cleaner + if s.current.Some? && s.current != Some(c) then [s.current.value] else [],
              events := s.events + [Connected(c)], promoted := s.promoted + [c])
    case Message(c, m) => if s.current == Some(c) then s.(events := s.events + [Forwarded(c, m)]) else s
    case End(c, status) =>
      s.(current := Without(s.current, c), pending := Without(s.pending, c), cleaner := s.cleaner + [c],
         events := s.events + if s.current == Some(c) then [Ended(c, status)] else [])
    case Disconnect =>
      if s.current.None? then s
      else s.(current := None, pending := Without(s.pending, s.current.value),
              cleaner := s.cleaner + [s.current.value], taken := s.current)
    case StopServer =>
      s.(current := None, pending := None, stopped := s.stopped + Members(s.current) + Members(s.pending),
         taken := if s.current.Some? then s.current else s.taken)
    case CleanerRuns =>
      if s.cleaner == [] then s else s.(cleaner := s.cleaner[1..], stopped := s.stopped + {s.cleaner[0]})
  }

  function Run(s: State, steps: seq<Step>): (r: State)
    decreases |steps|
  {
    if steps == [] then s else Run(Do(s, steps[0]), steps[1..])
  }

  /** Events of a client come after its accept. */
  predicate Plausible(s: State, step: Step) {
    match step
    case Open(c) => c < s.accepted
    case Message(c, _) => c < s.accepted
    case End(c, _) => c < s.accepted
    case _ => true
  }

  predicate PlausibleRun(s: State, steps: seq<Step>)
    decreases |steps|
  {
    steps == [] || (Plausible(s, steps[0]) && PlausibleRun(Do(s, steps[0]), steps[1..]))
  }

  // ---------------------------------------------------------------- the server object

  class Server {
    var usbClient: Option<nat>
    var tempUsbClient: Option<nat>
    var accepted: nat
    var cleaner: seq<nat>
    var stopped: set<nat>
    var events: seq<Event>
    ghost var promoted: seq<nat>
    ghost var taken: Option<nat>

    ghost function View(): (s: State)
      reads this
    {
      State(usbClient, tempUsbClient, accepted, cleaner, stopped, events, promoted, taken)
    }

    constructor ()
      ensures View() == INITIAL
    {
      usbClient, tempUsbClient, accepted, cleaner, stopped, events := None, None, 0, [], {}, [];
      promoted, taken := [], None;
    }

    method ScheduleClientStop(client: Option<nat>)
      modifies this`cleaner
      ensures cleaner == old(cleaner) + if client.Some? then [client.value] else []
    {
      if client.Some? {
        cleaner := cleaner + [client.value];
      }
    }

    /** The part of SocketServerPosix::Start after a successful accept. */
    method AcceptClient()
      modifies this
      ensures View() == Do(old(View()), Accept)
    {
      var oldTempClient := tempUsbClient;
      tempUsbClient, accepted := Some(accepted), accepted + 1;
      if oldTempClient.Some? {
        ScheduleClientStop(oldTempClient);
      }
    }

    method HandleOnOpenStatus(client: nat)
      modifies this
      ensures View() == Do(old(View()), Open(client))
    {
      if tempUsbClient != Some(client) {
        return;
      }
      var oldClient := usbClient;
      usbClient := Some(client);
      promoted := promoted + [client];
      if oldClient.Some? && oldClient != Some(client) {
        ScheduleClientStop(oldClient);
      }
      events := events + [Connected(client)];
    }

    method HandleOnMessageStatus(client: nat, message: string)
      modifies this
      ensures View() == Do(old(View()), Message(client, message))
    {
      var isCurrentClient := usbClient.Some? && usbClient == Some(client);
      if !isCurrentClient {
        return;
      }
      events := events + [Forwarded(client, message)];
    }

    /** HandleOnCloseStatus and HandleOnErrorStatus, which differ in the status only. */
    method HandleOnEndStatus(client: nat, status: Status)
      modifies this
      ensures View() == Do(old(View()), End(client, status))
    {
      var clientToStop: Option<nat>;
      var shouldNotify, clearedPromotedClient := false, false;
      var supersededByNewAccept := tempUsbClient.Some? && tempUsbClient != Some(client);
      if supersededByNewAccept || usbClient.None? || usbClient != Some(client) {
        if usbClient == Some(client) {
          usbClient, clearedPromotedClient := None, true;
        }
        if tempUsbClient == Some(client) {
          tempUsbClient := None;
        }
        clientToStop := Some(client);
      } else {
        clientToStop := usbClient;
        usbClient := None;
        if tempUsbClient == Some(client) {
          tempUsbClient := None;
        }
        shouldNotify := true;
      }
      if !shouldNotify && !clearedPromotedClient {
        ScheduleClientStop(clientToStop);
        return;
      }
      ScheduleClientStop(clientToStop);
      events := events + [Ended(client, status)];
    }

    method DisconnectClient()
      modifies this
      ensures View() == Do(old(View()), Disconnect)
    {
      var clientToStop := usbClient;
      usbClient := None;
      if tempUsbClient == clientToStop {
        tempUsbClient := None;
      }
      if clientToStop.Some? {
        taken := clientToStop;
        ScheduleClientStop(clientToStop);
      }
    }

    /** StopServer once the accept loop has left Start. */
    method Stop()
      modifies this
      ensures View() == Do(old(View()), StopServer)
    {
      var currentClient, pendingClient := usbClient, tempUsbClient;
      usbClient, tempUsbClient := None, None;
      if currentClient.Some? {
        taken := currentClient;
        stopped := stopped + {currentClient.value};
      }
      if pendingClient.Some? && pendingClient != currentClient {
        stopped := stopped + {pendingClient.value};
      }
    }

    method RunCleaner()
      modifies this
      ensures View() == Do(old(View()), CleanerRuns)
    {
      if cleaner != [] {
        stopped, cleaner := stopped + {cleaner[0]}, cleaner[1..];
      }
    }
  }

  // ---------------------------------------------------------------- what every step keeps

  /** The client of the last status report, if that report was a connect. */
  function LastConnected(events: seq<Event>): (c: Option<nat>) {
    if events == [] then None
    else match events[|events| - 1]
      case Connected(c) => Some(c)
      case Ended(_, _) => None
      case Forwarded(_, _) => LastConnected(events[..|events| - 1])
  }

  /** Every end report and every message belongs to the client last reported connected. */
  predicate Exact(events: seq<Event>) {
    forall i :: 0 <= i < |events| && !events[i].Connected? ==>
      LastConnected(events[..i]) == Some(events[i].client)
  }

  /** The clients reported connected, in order. */
  function Connects(events: seq<Event>): (r: seq<nat>) {
    if events == [] then []
    else Connects(events[..|events| - 1]) + if events[|events| - 1].Connected? then [events[|events| - 1].client] else []
  }

  predicate NonDecreasing(s: seq<nat>) {
    forall i, j :: 0 <= i < j < |s| ==> s[i] <= s[j]
  }

  predicate Kept(s: State, c: nat) {
    s.current == Some(c) || s.pending == Some(c) || c in s.cleaner || c in s.stopped
  }

  predicate Inv(s: State) {
    // the pending client is the newest one, and the current one is no newer
    && (s.pending.Some? ==> s.pending.value + 1 == s.accepted)
    && (s.current.Some? ==> s.current.value < s.accepted)
    && (forall i :: 0 <= i < |s.promoted| ==> s.promoted[i] < s.accepted)
    && NonDecreasing(s.promoted)
    // every promotion is reported
    && s.promoted == Connects(s.events)
    // nobody is leaked
    && (forall c :: 0 <= c < s.accepted ==> Kept(s, c))
    // reports are exact
    && (s.current.Some? ==> LastConnected(s.events) == s.current)
    && (s.current.None? && LastConnected(s.events).Some? ==> LastConnected(s.events) == s.taken)
    && Exact(s.events)
  }

  lemma ExactSnoc(events: seq<Event>, e: Event)
    requires Exact(events) && (!e.Connected? ==> LastConnected(events) == Some(e.client))
    ensures Exact(events + [e])
    ensures LastConnected(events + [e]) ==
            match e case Connected(c) => Some(c) case Ended(_, _) => None case Forwarded(_, _) => LastConnected(events)
    ensures Connects(events + [e]) == Connects(events) + if e.Connected? then [e.client] else []
  {
    var t := events + [e];
    assert t[..|events|] == events;
    forall i | 0 <= i < |t| && !t[i].Connected? ensures LastConnected(t[..i]) == Some(t[i].client) {
      if i < |events| { assert t[..i] == events[..i]; }
    }
  }

  lemma DoKeepsClients(s: State, step: Step)
    requires Inv(s) && Plausible(s, step)
    ensures var r := Do(s, step);
            forall c :: 0 <= c < r.accepted ==> Kept(r, c)
  {
    var r := Do(s, step);
    forall c | 0 <= c < r.accepted ensures Kept(r, c) {
      if c < s.accepted {
        assert Kept(s, c);
        assert c in s.cleaner ==> c in r.cleaner || c in r.stopped by { CleanerMoves(s, step, c); }
      }
    }
  }

  lemma CleanerMoves(s: State, step: Step, c: nat)
    ensures var r := Do(s, step); c in s.cleaner ==> c in r.cleaner || c in r.stopped
  {
    if c in s.cleaner && step.CleanerRuns? {
      assert s.cleaner == [s.cleaner[0]] + s.cleaner[1..];
    }
  }

  lemma DoKeepsInv(s: State, step: Step)
    requires Inv(s) && Plausible(s, step)
    ensures Inv(Do(s, step))
  {
    DoKeepsClients(s, step);
    match step
    case Open(c) => ExactSnoc(s.events, Connected(c));
    case Message(c, m) => if s.current == Some(c) { ExactSnoc(s.events, Forwarded(c, m)); }
    case End(c, status) =>
      if s.current == Some(c) {
        ExactSnoc(s.events, Ended(c, status));
      } else {
        assert s.events + [] == s.events;
      }
    case _ =>
  }

  lemma {:induction false} RunKeepsInv(s: State, steps: seq<Step>)
    requires Inv(s) && PlausibleRun(s, steps)
    ensures Inv(Run(s, steps))
    decreases |steps|
  {
    if steps != [] {
      DoKeepsInv(s, steps[0]);
      RunKeepsInv(Do(s, steps[0]), steps[1..]);
    }
  }

  // ---------------------------------------------------------------- whole runs

  /** No client is leaked: it is current, pending, or its stop is queued or done. */
  lemma NoClientLeaked(steps: seq<Step>, c: nat)
    requires PlausibleRun(INITIAL, steps) && c < Run(INITIAL, steps).accepted
    ensures Kept(Run(INITIAL, steps), c)
  {
    RunKeepsInv(INITIAL, steps);
  }

  function CleanUp(n: nat): (steps: seq<Step>) { if n == 0 then [] else [CleanerRuns] + CleanUp(n - 1) }

  lemma {:induction false} CleanerCatchesUp(s: State, n: nat, c: nat)
    requires n == |s.cleaner| && (c in s.stopped || c in s.cleaner)
    ensures c in Run(s, CleanUp(n)).stopped
    decreases n
  {
    if n > 0 {
      assert s.cleaner == [s.cleaner[0]] + s.cleaner[1..];
      assert CleanUp(n)[0] == CleanerRuns && CleanUp(n)[1..] == CleanUp(n - 1);
      CleanerCatchesUp(Do(s, CleanerRuns), n - 1, c);
    }
  }

  /** Once the server has stopped and the cleaner has caught up, every client has been stopped. */
  lemma AllStoppedAfterStop(steps: seq<Step>, c: nat)
    requires PlausibleRun(INITIAL, steps) && c < Run(INITIAL, steps).accepted
    ensures var s := Do(Run(INITIAL, steps), StopServer);
            c in Run(s, CleanUp(|s.cleaner|)).stopped
  {
    RunKeepsInv(INITIAL, steps);
    DoKeepsInv(Run(INITIAL, steps), StopServer);
    var s := Do(Run(INITIAL, steps), StopServer);
    assert Kept(s, c);
    CleanerCatchesUp(s, |s.cleaner|, c);
  }

  /** Each client is opened at most once, and none of those already seen again. */
  predicate OpensOnce(seen: set<nat>, steps: seq<Step>)
    decreases |steps|
  {
    steps == [] ||
    (if steps[0].Open? then steps[0].client !in seen && OpensOnce(seen + {steps[0].client}, steps[1..])
     else OpensOnce(seen, steps[1..]))
  }

  predicate Increasing(s: seq<nat>) {
    forall i, j :: 0 <= i < j < |s| ==> s[i] < s[j]
  }

  /** Clients become current in accept order: never an older one after a newer one, and
      never the same one twice unless its open event is repeated. */
  lemma PromotionsIncrease(steps: seq<Step>)
    requires PlausibleRun(INITIAL, steps)
    ensures NonDecreasing(Run(INITIAL, steps).promoted) && Run(INITIAL, steps).promoted == Connects(Run(INITIAL, steps).events)
    ensures OpensOnce({}, steps) ==> Increasing(Run(INITIAL, steps).promoted)
  {
    RunKeepsInv(INITIAL, steps);
    if OpensOnce({}, steps) { PromotionsIncreaseFrom(INITIAL, steps, {}); }
  }

  lemma {:induction false} PromotionsIncreaseFrom(s: State, steps: seq<Step>, seen: set<nat>)
    requires Inv(s) && PlausibleRun(s, steps) && OpensOnce(seen, steps) && Increasing(s.promoted)
    requires forall i :: 0 <= i < |s.promoted| ==> s.promoted[i] in seen
    ensures Increasing(Run(s, steps).promoted)
    decreases |steps|
  {
    if steps != [] {
      var r := Do(s, steps[0]);
      DoKeepsInv(s, steps[0]);
      if steps[0].Open? {
        var c := steps[0].client;
        assert r.promoted == s.promoted || r.promoted == s.promoted + [c];
        assert NonDecreasing(r.promoted);
        PromotionsIncreaseFrom(r, steps[1..], seen + {c});
      } else {
        PromotionsIncreaseFrom(r, steps[1..], seen);
      }
    }
  }

  function OpenCount(steps: seq<Step>, c: nat): (n: nat)
    decreases |steps|
  {
    if steps == [] then 0 else (if steps[0] == Open(c) then 1 else 0) + OpenCount(steps[1..], c)
  }

  lemma {:induction false} CountedOnce(seen: set<nat>, steps: seq<Step>)
    requires forall c: nat :: OpenCount(steps, c) <= if c in seen then 0 else 1
    ensures OpensOnce(seen, steps)
    decreases |steps|
  {
    if steps != [] {
      var more := if steps[0].Open? then seen + {steps[0].client} else seen;
      if steps[0].Open? {
        assert OpenCount(steps, steps[0].client) == 1 + OpenCount(steps[1..], steps[0].client);
      }
      forall c: nat ensures OpenCount(steps[1..], c) <= if c in more then 0 else 1 {
        assert OpenCount(steps[1..], c) <= OpenCount(steps, c);
      }
      CountedOnce(more, steps[1..]);
    }
  }

  /** Server and clients together: if every open event comes from a call of OnOpen by that
      client, then, whatever its threads do, clients become current in strictly increasing
      accept order. */
  lemma PromotionsStrictlyIncrease(steps: seq<Step>, start: Callbacks.State, moves: nat -> seq<Callbacks.Step>)
    requires PlausibleRun(INITIAL, steps) && Callbacks.Started(start)
    requires forall c: nat :: OpenCount(steps, c) <= OpensMade(start, moves(c))
    ensures Increasing(Run(INITIAL, steps).promoted)
  {
    forall c: nat ensures OpenCount(steps, c) <= 1 {
      assert OpenCount(steps, c) <= OpensMade(start, moves(c));
      Callbacks.CallbacksFireOnce(start, moves(c));
    }
    CountedOnce({}, steps);
    PromotionsIncrease(steps);
  }

  /** The OnOpen calls in a run of one client. */
  function OpensMade(start: Callbacks.State, moves: seq<Callbacks.Step>): (n: nat) {
    Callbacks.TallyOf(Callbacks.Run(start, moves).log).opens
  }

  /** Accepted, and neither current nor pending: superseded, ended, or stopped. */
  predicate Gone(s: State, c: nat) { c < s.accepted && s.current != Some(c) && s.pending != Some(c) }

  /** The later state shows nothing of the client. */
  predicate Unheard(s: State, r: State, c: nat) {
    && Gone(r, c)
    && s.promoted <= r.promoted && (forall i :: |s.promoted| <= i < |r.promoted| ==> r.promoted[i] != c)
    && s.events <= r.events && (forall i :: |s.events| <= i < |r.events| ==> r.events[i].client != c)
  }

  /** A client that is gone, however it went, never matters again: it is never current,
      pending, promoted or reported, however late its open, message or close arrives. */
  lemma GoneIsFinal(before: seq<Step>, after: seq<Step>, c: nat)
    requires PlausibleRun(INITIAL, before) && PlausibleRun(Run(INITIAL, before), after)
    requires Gone(Run(INITIAL, before), c)
    ensures Unheard(Run(INITIAL, before), Run(Run(INITIAL, before), after), c)
  {
    GoneIsFinalFrom(Run(INITIAL, before), after, c);
  }

  /** In particular a client once its close or error is handled, or once it is disconnected. */
  lemma EndIsFinal(before: seq<Step>, after: seq<Step>, c: nat, status: Status)
    requires PlausibleRun(INITIAL, before) && c < Run(INITIAL, before).accepted
    ensures var s := Do(Run(INITIAL, before), End(c, status));
            Unheard(s, Run(s, after), c)
    ensures var s := Do(Run(INITIAL, before), Disconnect);
            Run(INITIAL, before).current == Some(c) ==> Unheard(s, Run(s, after), c)
  {
    var s := Run(INITIAL, before);
    GoneIsFinalFrom(Do(s, End(c, status)), after, c);
    if s.current == Some(c) {
      GoneIsFinalFrom(Do(s, Disconnect), after, c);
    }
  }

  lemma {:induction false} GoneIsFinalFrom(s: State, steps: seq<Step>, c: nat)
    requires Gone(s, c)
    ensures Unheard(s, Run(s, steps), c)
    decreases |steps|
  {
    if steps != [] {
      var m := Do(s, steps[0]);
      assert Unheard(s, m, c);
      GoneIsFinalFrom(m, steps[1..], c);
      UnheardChain(s, m, Run(m, steps[1..]), c);
    }
  }

  lemma UnheardChain(s: State, m: State, r: State, c: nat)
    requires Unheard(s, m, c) && Unheard(m, r, c)
    ensures Unheard(s, r, c)
  {
    assert forall i :: |s.promoted| <= i < |m.promoted| ==> r.promoted[i] == m.promoted[i];
    assert forall i :: |s.events| <= i < |m.events| ==> r.events[i] == m.events[i];
  }

  /** Every end report and every forwarded message is preceded by the connect report of
      the same client, with only messages of that client in between. */
  lemma ReportsAreExact(steps: seq<Step>, i: nat) returns (k: nat)
    requires PlausibleRun(INITIAL, steps)
    requires i < |Run(INITIAL, steps).events| && !Run(INITIAL, steps).events[i].Connected?
    ensures var e := Run(INITIAL, steps).events;
            && k < i && e[k] == Connected(e[i].client)
            && forall j :: k < j < i ==> e[j].Forwarded? && e[j].client == e[i].client
  {
    RunKeepsInv(INITIAL, steps);
    k := ConnectBefore(Run(INITIAL, steps).events, i);
  }

  lemma {:induction false} ConnectBefore(e: seq<Event>, i: nat) returns (k: nat)
    requires Exact(e) && i <= |e| && LastConnected(e[..i]).Some?
    ensures var c := LastConnected(e[..i]).value;
            && k < i && e[k] == Connected(c)
            && forall j :: k < j < i ==> e[j].Forwarded? && e[j].client == c
    decreases i
  {
    k := i - 1;
    if e[i - 1].Forwarded? {
      assert e[..i][..i - 1] == e[..i - 1];
      k := ConnectBefore(e, i - 1);
    }
  }

  /** The client the listener last heard connect is the current one, or the one that a
      Disconnect or StopServer took away last, neither of which reports anything. */
  lemma LastHeardIsCurrent(steps: seq<Step>)
    requires PlausibleRun(INITIAL, steps)
    ensures var s := Run(INITIAL, steps);
            var heard := LastConnected(s.events);
            heard == s.current || (s.current.None? && heard == s.taken)
  {
    RunKeepsInv(INITIAL, steps);
  }

  // ---------------------------------------------------------------- what does happen

  predicate NoOpen(steps: seq<Step>) { forall i :: 0 <= i < |steps| ==> !steps[i].Open? }

  lemma {:induction false} SilentFrom(s: State, steps: seq<Step>)
    requires s.current.None? && NoOpen(steps)
    ensures Run(s, steps).current.None? && Run(s, steps).events == s.events
    decreases |steps|
  {
    if steps != [] {
      assert !steps[0].Open?;
      assert s.events + [] == s.events;
      SilentFrom(Do(s, steps[0]), steps[1..]);
    }
  }

  /** After a Disconnect or a StopServer nothing is reported or forwarded until a client opens. */
  lemma SilentUntilOpen(s: State, step: Step, after: seq<Step>)
    requires (step.Disconnect? || step.StopServer?) && NoOpen(after)
    ensures Run(Do(s, step), after).current.None? && Run(Do(s, step), after).events == s.events
  {
    SilentFrom(Do(s, step), after);
  }

  /** The step leaves the pending client c pending. */
  predicate KeepsPending(step: Step, c: nat) {
    !step.Accept? && !step.Disconnect? && !step.StopServer? && !(step.End? && step.client == c)
  }

  lemma {:induction false} StaysPending(s: State, steps: seq<Step>, c: nat)
    requires s.pending == Some(c) && forall i :: 0 <= i < |steps| ==> KeepsPending(steps[i], c)
    ensures Run(s, steps).pending == Some(c)
    decreases |steps|
  {
    if steps != [] {
      assert KeepsPending(steps[0], c);
      StaysPending(Do(s, steps[0]), steps[1..], c);
    }
  }

  /** The step leaves the current client c current: no end of c, nothing that takes it away,
      and no open of c or a newer client. */
  predicate KeepsCurrent(step: Step, c: nat) {
    && !step.Disconnect? && !step.StopServer? && !(step.End? && step.client == c)
    && !(step.Open? && step.client >= c)
  }

  /** The messages of c in the steps, as they are forwarded. */
  function Heard(steps: seq<Step>, c: nat): (r: seq<Event>)
    decreases |steps|
  {
    if steps == [] then []
    else (if steps[0].Message? && steps[0].client == c then [Forwarded(c, steps[0].message)] else []) + Heard(steps[1..], c)
  }

  lemma {:induction false} CurrentIsHeard(s: State, steps: seq<Step>, c: nat)
    requires s.current == Some(c) && c < s.accepted && (s.pending.Some? ==> s.pending.value >= c)
    requires forall i :: 0 <= i < |steps| ==> KeepsCurrent(steps[i], c)
    ensures var r := Run(s, steps);
            r.current == Some(c) && r.events == s.events + Heard(steps, c)
    decreases |steps|
  {
    if steps == [] {
      assert s.events + [] == s.events;
    } else {
      assert KeepsCurrent(steps[0], c);
      var m := Do(s, steps[0]);
      assert m.events == s.events + if steps[0].Message? && steps[0].client == c then [Forwarded(c, steps[0].message)] else [];
      CurrentIsHeard(m, steps[1..], c);
    }
  }

  /** A whole session, over every run: a client that is accepted, and opens before another is
      accepted and before it ends or the server lets go of it, becomes current and is reported
      connected; until it ends, is taken away or superseded each of its messages is forwarded
      once, unchanged and in order; and its end is reported with its status. */
  lemma SessionIsReported(before: seq<Step>, waiting: seq<Step>, serving: seq<Step>, status: Status)
    requires PlausibleRun(INITIAL, before)
    requires var c := Run(INITIAL, before).accepted;
             && (forall i :: 0 <= i < |waiting| ==> KeepsPending(waiting[i], c))
             && (forall i :: 0 <= i < |serving| ==> KeepsCurrent(serving[i], c))
    ensures var c := Run(INITIAL, before).accepted;
            var w := Run(Do(Run(INITIAL, before), Accept), waiting);
            var r := Run(Do(w, Open(c)), serving);
            var t := Do(r, End(c, status));
            && r.current == Some(c) && r.events == w.events + [Connected(c)] + Heard(serving, c)
            && t.current.None? && t.events == r.events + [Ended(c, status)]
  {
    var s := Run(INITIAL, before);
    var c := s.accepted;
    var w := Run(Do(s, Accept), waiting);
    StaysPending(Do(s, Accept), waiting, c);
    AcceptedGrows(Do(s, Accept), waiting);
    CurrentIsHeard(Do(w, Open(c)), serving, c);
  }

  lemma {:induction false} AcceptedGrows(s: State, steps: seq<Step>)
    ensures s.accepted <= Run(s, steps).accepted
    decreases |steps|
  {
    if steps != [] {
      AcceptedGrows(Do(s, steps[0]), steps[1..]);
    }
  }

  /** So two end reports always have a connect report between them. */
  lemma ConnectBetweenEnds(steps: seq<Step>, i: nat, j: nat)
    requires PlausibleRun(INITIAL, steps) && i < j < |Run(INITIAL, steps).events|
    requires Run(INITIAL, steps).events[i].Ended? && Run(INITIAL, steps).events[j].Ended?
    ensures exists k :: i < k < j && Run(INITIAL, steps).events[k].Connected?
  {
    var k := ReportsAreExact(steps, j);
    assert Run(INITIAL, steps).events[k].Connected?;
  }
}
