/** DebugRouterCore's connection and retry machine. Each public call and each transport
    callback is one step; the delayed reconnect tasks run whenever the executor gets to
    them. There is one WebSocket and one USB transceiver. */
module CoreConnection {
  import opened Options

  datatype Kind = WebSocket | Usb
  datatype ConnectionState = DISCONNECTED | CONNECTING | CONNECTED

  /** Calls into the transceivers and listeners, and the bookkeeping the claims are about. */
  datatype Entry =
    | ConnectWebSocket(url: string)   // message_transceivers_[0]->Connect
    | DisconnectTransport(kind: Kind)
    | Reset                           // a non-reconnect connect took effect
    | Posted                          // a delayed reconnect was posted
    | Opened(kind: Kind)              // listeners' OnOpen
    | Ended(kind: Kind)               // listeners' OnClose or OnError

  datatype State = State(
    connection: ConnectionState,
    transceiver: Option<Kind>,        // current_transceiver_
    retryTimes: nat,
    host: string,                     // host_url_
    url: string,                      // server_url_
    room: string,                     // room_id_
    pending: nat,                     // posted reconnect tasks that have not run
    log: seq<Entry>)

  predicate Initial(s: State) {
    && s.connection.DISCONNECTED? && s.transceiver.None? && s.retryTimes == 0 && s.pending == 0
    && |s.host| == 0 && |s.url| == 0 && |s.room| == 0 && |s.log| == 0
  }

  datatype Step =
    | Connect(url: string, room: string)
    | RunReconnect                        // the executor runs one posted reconnect
    | Disconnect
    | OnOpen(kind: Kind)
    | OnClosed(kind: Kind, forbidden: bool)  // the config may forbid reconnecting on close
    | OnFailure(kind: Kind)
    | DisableChannel                      // DisableDebugChannel when it marks a USB connection

  const HOST_MARK := "page/android"

  predicate OccursAt(s: string, pattern: string, i: nat) {
    i + |pattern| <= |s| && s[i..i + |pattern|] == pattern
  }

  /** The first position of pattern in s at or after `from`, or |s| if there is none. */
  function Find(s: string, pattern: string, from: nat): (i: nat)
    requires from <= |s| && |pattern| > 0
    ensures from <= i <= |s| && (forall j :: from <= j < i ==> !OccursAt(s, pattern, j))
    ensures i < |s| ==> OccursAt(s, pattern, i)
    decreases |s| - from
  {
    if from == |s| || OccursAt(s, pattern, from) then from else Find(s, pattern, from + 1)
  }

  /** The host prefix of a url: up to and including the first mark, empty without one. */
  function HostOf(url: string): (host: string)
    ensures host <= url
  {
    var i := Find(url, HOST_MARK, 0);
    if i < |url| then url[..i + |HOST_MARK|] else ""
  }

  /** What counts as the host, without searching: everything up to a mark that has none before
      it; and nothing iff there is no mark. */
  lemma HostOfIs(url: string, i: nat)
    ensures OccursAt(url, "page/android", i) && (forall j :: 0 <= j < i ==> !OccursAt(url, "page/android", j)) ==>
              HostOf(url) == url[..i] + "page/android"
    ensures HostOf(url) == "" <==> forall j :: 0 <= j <= |url| ==> !OccursAt(url, "page/android", j)
  {
    var k := Find(url, HOST_MARK, 0);
    if OccursAt(url, HOST_MARK, i) && (forall j :: 0 <= j < i ==> !OccursAt(url, HOST_MARK, j)) {
      assert k == i;
      assert url[..i + 12] == url[..i] + url[i..i + 12];
    }
  }

  // ---------------------------------------------------------------- effects

  function Note(s: State, e: Entry): (r: State) { s.(log := s.log + [e]) }

  function DoDisconnect(s: State): (r: State) {
    if s.connection.DISCONNECTED? || s.transceiver.None? then s
    else Note(s, DisconnectTransport(s.transceiver.value)).(transceiver := None)
  }

  predicate Redundant(s: State, url: string, room: string) {
    room == s.room && HostOf(url) == s.host && !s.connection.DISCONNECTED?
  }

  function DoConnect(s: State, url: string, room: string, reconnect: bool): (r: State) {
    if Redundant(s, url, room) then s
    else
      var s1 := if reconnect then s else Note(s, Reset).(retryTimes := 0);
      var s2 := Note(DoDisconnect(s1), ConnectWebSocket(url));
      s2.(connection := CONNECTING, host := HostOf(url), url := url, room := room)
  }

  function DoReconnect(s: State): (r: State) {
    if |s.url| > 0 && |s.room| > 0 then DoConnect(s, s.url, s.room, true) else s
  }

  function DoOnOpen(s: State, kind: Kind): (r: State) {
    if s.connection.CONNECTED? && s.transceiver == Some(kind) then s
    else
      var s1 := if s.connection.CONNECTED? && s.transceiver.Some?
                then Note(s, DisconnectTransport(s.transceiver.value)) else s;
      var s2 := Note(s1, Opened(kind)).(transceiver := Some(kind), connection := CONNECTED);
      if kind.Usb? then s2.(host := "", url := "", room := "") else s2
  }

  function DoTryToReconnect(s: State): (r: State) {
    if s.retryTimes < 3 then Note(s, Posted).(retryTimes := s.retryTimes + 1, pending := s.pending + 1) else s
  }

  /** The common tail of OnClosed and OnFailure. */
  function DoEnd(s: State, kind: Kind, retry: bool): (r: State) {
    var s1 := s.(connection := DISCONNECTED, transceiver := None);
    var s2 := if kind.Usb? || s.retryTimes >= 3 then Note(s1, Ended(kind)) else s1;
    if kind.WebSocket? && retry then DoTryToReconnect(s2) else s2
  }

  function Do(s: State, step: Step): (r: State) {
    match step
    case Connect(url, room) => DoConnect(s, url, room, false)
    case RunReconnect => if s.pending == 0 then s else DoReconnect(s.(pending := s.pending - 1))
    case Disconnect => DoDisconnect(s)
    case OnOpen(kind) => DoOnOpen(s, kind)
    case OnClosed(kind, forbidden) =>
      if s.transceiver != Some(kind) || s.connection.DISCONNECTED? then s else DoEnd(s, kind, !forbidden)
    case OnFailure(kind) =>
      if (s.transceiver.Some? && s.transceiver != Some(kind)) || s.connection.DISCONNECTED? then s
      else DoEnd(s, kind, true)
    case DisableChannel => if s.transceiver == Some(Usb) then s.(connection := DISCONNECTED) else s
  }

  function Run(s: State, steps: seq<Step>): (r: State)
    decreases |steps|
  {
    if steps == [] then s else Run(Do(s, steps[0]), steps[1..])
  }

  // ---------------------------------------------------------------- the object

  class Core {
    var connectionState: ConnectionState
    var currentTransceiver: Option<Kind>
    var retryTimes: nat
    var hostUrl: string
    var serverUrl: string
    var roomId: string
    var posted: nat
    var log: seq<Entry>

    ghost function View(): (s: State)
      reads this
    {
      State(connectionState, currentTransceiver, retryTimes, hostUrl, serverUrl, roomId, posted, log)
    }

    constructor ()
      ensures Initial(View())
    {
      connectionState, currentTransceiver, retryTimes := DISCONNECTED, None, 0;
      hostUrl, serverUrl, roomId, posted, log := "", "", "", 0, [];
    }

    method Disconnect()
      modifies this
      ensures View() == DoDisconnect(old(View()))
    {
      if connectionState != DISCONNECTED {
        if currentTransceiver.Some? {
          log := log + [DisconnectTransport(currentTransceiver.value)];
          currentTransceiver := None;
        }
      }
    }

    method Connect(url: string, room: string, isReconnect: bool)
      modifies this
      ensures View() == DoConnect(old(View()), url, room, isReconnect)
    {
      var currHost := HostOf(url);
      if room == roomId && currHost == hostUrl && connectionState != DISCONNECTED {
        return;
      }
      if !isReconnect {
        retryTimes, log := 0, log + [Reset];
      }
      Disconnect();
      connectionState := CONNECTING;
      log := log + [ConnectWebSocket(url)];
      hostUrl, serverUrl, roomId := currHost, url, room;
    }

    method Reconnect()
      modifies this
      ensures View() == DoReconnect(old(View()))
    {
      if |serverUrl| > 0 && |roomId| > 0 {
        Connect(serverUrl, roomId, true);
      }
    }

    /** The executor takes one delayed task. */
    method RunPosted()
      modifies this
      ensures View() == Do(old(View()), RunReconnect)
    {
      if posted > 0 {
        posted := posted - 1;
        Reconnect();
      }
    }

    method TryToReconnect()
      modifies this`retryTimes, this`posted, this`log
      ensures View() == DoTryToReconnect(old(View()))
    {
      if retryTimes < 3 {
        retryTimes := retryTimes + 1;
        posted, log := posted + 1, log + [Posted];
      }
    }

    method OnOpen(transceiver: Kind)
      modifies this
      ensures View() == Do(old(View()), Step.OnOpen(transceiver))
    {
      if connectionState == CONNECTED {
        if currentTransceiver == Some(transceiver) {
          return;
        } else if currentTransceiver.Some? {
          log := log + [DisconnectTransport(currentTransceiver.value)];
        }
      }
      currentTransceiver, connectionState := Some(transceiver), CONNECTED;
      if transceiver == Usb {
        hostUrl, serverUrl, roomId := "", "", "";
      }
      log := log + [Opened(transceiver)];
    }

    /** What OnClosed and OnFailure have in common once they act. */
    method End(transceiver: Kind, retry: bool)
      modifies this
      ensures View() == DoEnd(old(View()), transceiver, retry)
    {
      connectionState, currentTransceiver := DISCONNECTED, None;
      if transceiver == Usb || retryTimes >= 3 {
        log := log + [Ended(transceiver)];
      }
      if transceiver == WebSocket && retry {
        TryToReconnect();
      }
    }

    method OnClosed(transceiver: Kind, forbidden: bool)
      modifies this
      ensures View() == Do(old(View()), Step.OnClosed(transceiver, forbidden))
    {
      if Some(transceiver) == currentTransceiver && connectionState != DISCONNECTED {
        End(transceiver, !forbidden);
      }
    }

    method OnFailure(transceiver: Kind)
      modifies this
      ensures View() == Do(old(View()), Step.OnFailure(transceiver))
    {
      if (currentTransceiver.None? || Some(transceiver) == currentTransceiver) && connectionState != DISCONNECTED {
        End(transceiver, true);
      }
    }
  }

  // ---------------------------------------------------------------- what every step keeps

  /** Reconnects posted since the last effective explicit connect. */
  function SinceReset(log: seq<Entry>): (n: nat) {
    if |log| == 0 then 0
    else match log[|log| - 1]
      case Reset => 0
      case Posted => SinceReset(log[..|log| - 1]) + 1
      case _ => SinceReset(log[..|log| - 1])
  }

  lemma SinceResetSnoc(log: seq<Entry>, e: Entry)
    ensures SinceReset(log + [e]) == if e.Reset? then 0 else SinceReset(log) + if e.Posted? then 1 else 0
  {
    assert (log + [e])[..|log|] == log;
  }

  /** Listeners hear of a WebSocket end only after three reconnects were posted. */
  predicate EndsAfterThree(log: seq<Entry>) {
    forall i :: 0 <= i < |log| && log[i] == Ended(WebSocket) ==> SinceReset(log[..i]) == 3
  }

  predicate AtMostThree(log: seq<Entry>) {
    forall i :: 0 <= i <= |log| ==> SinceReset(log[..i]) <= 3
  }

  predicate Inv(s: State) {
    && s.host == HostOf(s.url)
    && s.retryTimes == SinceReset(s.log)
    && s.retryTimes <= 3
    && AtMostThree(s.log) && EndsAfterThree(s.log)
  }

  lemma NoteKeepsLog(s: State, e: Entry, retry: nat)
    requires s.retryTimes == SinceReset(s.log) && AtMostThree(s.log) && EndsAfterThree(s.log)
    requires e == Ended(WebSocket) ==> s.retryTimes == 3
    requires retry == (if e.Reset? then 0 else s.retryTimes + if e.Posted? then 1 else 0) && retry <= 3
    ensures var log := Note(s, e).log;
            retry == SinceReset(log) && AtMostThree(log) && EndsAfterThree(log)
  {
    var t := s.log + [e];
    SinceResetSnoc(s.log, e);
    forall i | 0 <= i <= |t| ensures SinceReset(t[..i]) <= 3 {
      if i <= |s.log| { assert t[..i] == s.log[..i]; } else { assert t[..i] == t; }
    }
    forall i | 0 <= i < |t| && t[i] == Ended(WebSocket) ensures SinceReset(t[..i]) == 3 {
      assert t[..i] == s.log[..i];
      if i == |s.log| { assert s.log[..i] == s.log; }
    }
  }

  lemma EmptyHost(url: string)
    requires |url| == 0
    ensures |HostOf(url)| == 0
  {
  }

  lemma ConnectKeepsInv(s: State, url: string, room: string, reconnect: bool)
    requires Inv(s)
    ensures Inv(DoConnect(s, url, room, reconnect))
  {
    if !Redundant(s, url, room) {
      var s1 := if reconnect then s else Note(s, Reset).(retryTimes := 0);
      if !reconnect { NoteKeepsLog(s, Reset, 0); }
      DisconnectKeepsInv(s1);
      var s2 := DoDisconnect(s1);
      NoteKeepsLog(s2, ConnectWebSocket(url), s2.retryTimes);
    }
  }

  lemma DisconnectKeepsInv(s: State)
    requires Inv(s)
    ensures Inv(DoDisconnect(s))
  {
    if s.transceiver.Some? { NoteKeepsLog(s, DisconnectTransport(s.transceiver.value), s.retryTimes); }
  }

  lemma OpenKeepsInv(s: State, kind: Kind)
    requires Inv(s)
    ensures Inv(DoOnOpen(s, kind))
  {
    if s.transceiver.Some? { NoteKeepsLog(s, DisconnectTransport(s.transceiver.value), s.retryTimes); }
    var s1 := if s.connection.CONNECTED? && s.transceiver.Some?
              then Note(s, DisconnectTransport(s.transceiver.value)) else s;
    NoteKeepsLog(s1, Opened(kind), s1.retryTimes);
    EmptyHost("");
  }

  lemma EndKeepsInv(s: State, kind: Kind, retry: bool)
    requires Inv(s)
    ensures Inv(DoEnd(s, kind, retry))
  {
    var s1 := s.(connection := DISCONNECTED, transceiver := None);
    var ends := kind.Usb? || s.retryTimes >= 3;
    if ends { NoteKeepsLog(s1, Ended(kind), s1.retryTimes); }
    var s2 := if ends then Note(s1, Ended(kind)) else s1;
    if s2.retryTimes < 3 { NoteKeepsLog(s2, Posted, s2.retryTimes + 1); }
  }

  lemma DoKeepsInv(s: State, step: Step)
    requires Inv(s)
    ensures Inv(Do(s, step))
  {
    match step
    case Connect(url, room) => ConnectKeepsInv(s, url, room, false);
    case RunReconnect =>
      if s.pending > 0 { ConnectKeepsInv(s.(pending := s.pending - 1), s.url, s.room, true); }
    case Disconnect => DisconnectKeepsInv(s);
    case OnOpen(kind) => OpenKeepsInv(s, kind);
    case OnClosed(kind, forbidden) => EndKeepsInv(s, kind, !forbidden);
    case OnFailure(kind) => EndKeepsInv(s, kind, true);
    case DisableChannel =>
  }

  lemma {:induction false} RunKeepsInv(s: State, steps: seq<Step>)
    requires Inv(s)
    ensures Inv(Run(s, steps))
    decreases |steps|
  {
    if steps != [] {
      DoKeepsInv(s, steps[0]);
      RunKeepsInv(Do(s, steps[0]), steps[1..]);
    }
  }

  lemma InitialHolds(s: State)
    requires Initial(s)
    ensures Inv(s)
  {
    EmptyHost(s.url);
    assert forall i :: 0 <= i <= |s.log| ==> s.log[..i] == s.log;
  }

  // ---------------------------------------------------------------- whole runs

  /** A delayed reconnect never disturbs a live or an in-progress connection: after any
      run, running it changes nothing but the number of tasks unless the core is DISCONNECTED. */
  lemma ReconnectIsHarmless(start: State, steps: seq<Step>)
    requires Initial(start)
    ensures var s := Run(start, steps);
            !s.connection.DISCONNECTED? && s.pending > 0 ==>
              Do(s, RunReconnect) == s.(pending := s.pending - 1)
  {
    InitialHolds(start);
    RunKeepsInv(start, steps);
  }

  /** ... and it acts exactly when DISCONNECTED with a url and a room to go back to. */
  lemma ReconnectActsIff(start: State, steps: seq<Step>)
    requires Initial(start)
    ensures var s := Run(start, steps);
            s.pending > 0 ==>
              (Do(s, RunReconnect).log != s.log <==> s.connection.DISCONNECTED? && |s.url| > 0 && |s.room| > 0)
  {
    InitialHolds(start);
    RunKeepsInv(start, steps);
    var s := Run(start, steps);
    if s.pending > 0 && s.connection.DISCONNECTED? && |s.url| > 0 && |s.room| > 0 {
      assert |Do(s, RunReconnect).log| > |s.log|;
    }
  }

  /** When it acts it goes to the stored url, and that only. */
  lemma ReconnectGoesTo(start: State, steps: seq<Step>)
    requires Initial(start)
    ensures var s := Run(start, steps);
            var r := Do(s, RunReconnect);
            s.pending > 0 && s.connection.DISCONNECTED? && |s.url| > 0 && |s.room| > 0 ==>
              r == s.(pending := s.pending - 1, connection := CONNECTING, log := s.log + [ConnectWebSocket(s.url)])
  {
    InitialHolds(start);
    RunKeepsInv(start, steps);
  }

  /** The step is an explicit connect that takes effect. */
  predicate Resets(s: State, step: Step) {
    step.Connect? && (step.room != s.room || HostOf(step.url) != s.host || s.connection.DISCONNECTED?)
  }

  /** Where a reconnect would go. */
  datatype Goal = Goal(url: string, room: string)

  /** The url and room of the last explicit connect that took effect, nothing after a USB open. */
  function Target(s: State, steps: seq<Step>, goal: Goal): (r: Goal)
    decreases |steps|
  {
    if steps == [] then goal
    else Target(Do(s, steps[0]), steps[1..],
                if Resets(s, steps[0]) then Goal(steps[0].url, steps[0].room)
                else if steps[0] == OnOpen(Usb) then Goal("", "") else goal)
  }

  lemma StepGoal(s: State, step: Step)
    requires TransportInv(s)
    ensures TransportInv(Do(s, step))
    ensures Goal(Do(s, step).url, Do(s, step).room) ==
            if Resets(s, step) then Goal(step.url, step.room) else if step == OnOpen(Usb) then Goal("", "") else Goal(s.url, s.room)
  {
  }

  lemma {:induction false} GoalIsTarget(s: State, steps: seq<Step>)
    requires TransportInv(s)
    ensures Goal(Run(s, steps).url, Run(s, steps).room) == Target(s, steps, Goal(s.url, s.room))
    decreases |steps|
  {
    if steps != [] {
      StepGoal(s, steps[0]);
      GoalIsTarget(Do(s, steps[0]), steps[1..]);
    }
  }

  predicate NoExplicitConnect(steps: seq<Step>) {
    forall i :: 0 <= i < |steps| ==> !steps[i].Connect?
  }

  /** What holds between the state, the transceiver and the url. */
  predicate TransportInv(s: State) {
    && (s.connection.CONNECTED? && s.transceiver == Some(Usb) ==> |s.url| == 0 && |s.room| == 0)
    && (s.connection.DISCONNECTED? ==> s.transceiver != Some(WebSocket))
  }

  lemma {:induction false} RunKeepsTransport(s: State, steps: seq<Step>)
    requires TransportInv(s)
    ensures TransportInv(Run(s, steps))
    decreases |steps|
  {
    if steps != [] {
      RunKeepsTransport(Do(s, steps[0]), steps[1..]);
    }
  }

  /** After a USB open, a repeated one included, reconnects stay no-ops until the next
      explicit connect. */
  lemma UsbOpenSilencesReconnect(start: State, before: seq<Step>, after: seq<Step>)
    requires Initial(start) && NoExplicitConnect(after)
    ensures var r := Run(Do(Run(start, before), OnOpen(Usb)), after);
            r.pending > 0 ==> Do(r, RunReconnect) == r.(pending := r.pending - 1)
  {
    RunKeepsTransport(start, before);
    NoUrlPersists(Do(Run(start, before), OnOpen(Usb)), after);
  }

  lemma {:induction false} NoUrlPersists(s: State, steps: seq<Step>)
    requires |s.url| == 0 && NoExplicitConnect(steps)
    ensures |Run(s, steps).url| == 0
    decreases |steps|
  {
    if steps != [] {
      assert !steps[0].Connect?;
      NoUrlPersists(Do(s, steps[0]), steps[1..]);
    }
  }

  /** At every point of every run at most three reconnects were posted since the last
      effective explicit connect, and a WebSocket end reaches the listeners only when all
      three were. */
  lemma RetryBudget(start: State, steps: seq<Step>, i: nat)
    requires Initial(start) && i <= |Run(start, steps).log|
    ensures var log := Run(start, steps).log;
            && SinceReset(log[..i]) <= 3
            && (i < |log| && log[i] == Ended(WebSocket) ==> SinceReset(log[..i]) == 3)
  {
    InitialHolds(start);
    RunKeepsInv(start, steps);
  }

  // ---------------------------------------------------------------- what does happen

  /** The step ends the WebSocket link or attempt that the core is on. */
  predicate EndsWebSocket(s: State, step: Step) {
    !s.connection.DISCONNECTED? &&
    ((step.OnClosed? && step.kind.WebSocket? && s.transceiver == Some(WebSocket))
     || (step.OnFailure? && step.kind.WebSocket? && (s.transceiver.None? || s.transceiver == Some(WebSocket))))
  }

  predicate MayRetry(step: Step) { step.OnClosed? ==> !step.forbidden }

  /** WebSocket ends with reconnecting allowed, since the last explicit connect that took effect. */
  function EndsSince(s: State, steps: seq<Step>, n: nat): (r: nat)
    decreases |steps|
  {
    if steps == [] then n
    else EndsSince(Do(s, steps[0]), steps[1..],
                   if Resets(s, steps[0]) then 0 else if EndsWebSocket(s, steps[0]) && MayRetry(steps[0]) then n + 1 else n)
  }

  function Min(a: nat, b: nat): (m: nat) { if a < b then a else b }

  lemma {:induction false} RetriesFollowEnds(s: State, steps: seq<Step>, n: nat)
    requires s.retryTimes == Min(n, 3)
    ensures Run(s, steps).retryTimes == Min(EndsSince(s, steps, n), 3)
    decreases |steps|
  {
    if steps != [] {
      var m := if Resets(s, steps[0]) then 0 else if EndsWebSocket(s, steps[0]) && MayRetry(steps[0]) then n + 1 else n;
      StepRetries(s, steps[0], n);
      RetriesFollowEnds(Do(s, steps[0]), steps[1..], m);
    }
  }

  lemma StepRetries(s: State, step: Step, n: nat)
    requires s.retryTimes == Min(n, 3)
    ensures Do(s, step).retryTimes ==
            Min(if Resets(s, step) then 0 else if EndsWebSocket(s, step) && MayRetry(step) then n + 1 else n, 3)
  {
  }

  /** Every run posts exactly one reconnect for each of the first three WebSocket ends since
      the last explicit connect that took effect, and none for the others. */
  lemma RetriesAreExact(start: State, steps: seq<Step>)
    requires Initial(start)
    ensures SinceReset(Run(start, steps).log) == Min(EndsSince(start, steps, 0), 3)
  {
    InitialHolds(start);
    RunKeepsInv(start, steps);
    RetriesFollowEnds(start, steps, 0);
  }

  /** What a WebSocket end does after any run: it is told to the listeners iff three reconnects
      were posted before, and otherwise one more is posted if reconnecting is allowed. */
  lemma EndToldIff(start: State, steps: seq<Step>, step: Step)
    requires Initial(start) && EndsWebSocket(Run(start, steps), step)
    ensures var s := Run(start, steps);
            var r := Do(s, step);
            && r.connection.DISCONNECTED? && r.transceiver.None?
            && (SinceReset(s.log) == 3 ==> r.log == s.log + [Ended(WebSocket)] && r.pending == s.pending)
            && (SinceReset(s.log) < 3 && MayRetry(step) ==> r.log == s.log + [Posted] && r.pending == s.pending + 1)
            && (SinceReset(s.log) < 3 && !MayRetry(step) ==> r.log == s.log && r.pending == s.pending)
  {
    InitialHolds(start);
    RunKeepsInv(start, steps);
  }

  /** A failed attempt, and the executor's turn. */
  function Attempt(s: State): (r: State) { Do(Do(s, OnFailure(WebSocket)), RunReconnect) }

  lemma AttemptRetries(s: State)
    requires s.connection.CONNECTING? && s.transceiver.None? && s.pending == 0 && s.retryTimes < 3
    requires |s.url| > 0 && |s.room| > 0 && s.host == HostOf(s.url)
    ensures Attempt(s) == s.(retryTimes := s.retryTimes + 1, log := s.log + [Posted] + [ConnectWebSocket(s.url)])
  {
  }

  /** t is s after n failed attempts, each followed by a retry. */
  predicate Retried(s: State, t: State, n: nat) {
    t == s.(retryTimes := s.retryTimes + n, log := s.log + Again(s.url, n))
  }

  function Again(url: string, n: nat): (r: seq<Entry>) {
    if n == 0 then [] else Again(url, n - 1) + [Posted] + [ConnectWebSocket(url)]
  }

  lemma OneMoreRetry(s: State, t: State, n: nat)
    requires s.connection.CONNECTING? && s.transceiver.None? && s.pending == 0 && s.retryTimes + n < 3
    requires |s.url| > 0 && |s.room| > 0 && s.host == HostOf(s.url) && Retried(s, t, n)
    ensures Retried(s, Attempt(t), n + 1)
  {
    AttemptRetries(t);
    assert s.log + Again(s.url, n) + [Posted] + [ConnectWebSocket(s.url)] == s.log + Again(s.url, n + 1);
  }

  /** A server that never answers is tried four times and then reported once. */
  lemma UnreachableServer(s: State, url: string, room: string, n: nat)
    requires s.connection.DISCONNECTED? && s.transceiver.None? && s.pending == 0 && |url| > 0 && |room| > 0 && n == 3
    ensures var t := Do(Attempt(Attempt(Attempt(Do(s, Connect(url, room))))), OnFailure(WebSocket));
            && t.connection.DISCONNECTED? && t.pending == 0
            && t.log == s.log + [Reset] + [ConnectWebSocket(url)] + Again(url, n) + [Ended(WebSocket)]
  {
    var c := Do(s, Connect(url, room));
    assert c.log == s.log + [Reset] + [ConnectWebSocket(url)];
    assert Retried(c, c, 0);
    OneMoreRetry(c, c, 0);
    OneMoreRetry(c, Attempt(c), 1);
    OneMoreRetry(c, Attempt(Attempt(c)), 2);
    LastFailure(c, Attempt(Attempt(Attempt(c))), n);
  }

  lemma LastFailure(c: State, t: State, n: nat)
    requires c.connection.CONNECTING? && c.transceiver.None? && c.pending == 0 && c.retryTimes == 0 && n == 3 && Retried(c, t, n)
    ensures var r := Do(t, OnFailure(WebSocket));
            r.connection.DISCONNECTED? && r.pending == 0 && r.log == c.log + Again(c.url, n) + [Ended(WebSocket)]
  {
  }

  /** An explicit connect to another host or room takes the old link down before it goes to
      the new url, and the link it opens is the only one. */
  lemma ConnectTakesOver(s: State, url: string, room: string)
    requires s.connection.CONNECTED? && s.transceiver.Some? && (room != s.room || HostOf(url) != s.host)
    ensures var t := Do(Do(s, Connect(url, room)), OnOpen(WebSocket));
            && t.connection.CONNECTED? && t.transceiver == Some(WebSocket) && t.url == url && t.room == room
            && t.log == s.log + [Reset, DisconnectTransport(s.transceiver.value), ConnectWebSocket(url), Opened(WebSocket)]
  {
    var c := Do(s, Connect(url, room));
    assert c.log == s.log + [Reset] + [DisconnectTransport(s.transceiver.value)] + [ConnectWebSocket(url)];
  }

  /** Connecting to the same place again is a no-op while the first one lasts. */
  lemma ConnectTwice(s: State, url: string, room: string)
    ensures Do(Do(s, Connect(url, room)), Connect(url, room)) == Do(s, Connect(url, room))
  {
  }

  /** Whatever opens becomes the only link: another one that is up is told to disconnect first,
      and the listeners hear of the new one, once. */
  lemma OpenTakesOver(s: State, kind: Kind)
    ensures var t := Do(s, OnOpen(kind));
            && t.connection.CONNECTED? && t.transceiver == Some(kind) && Do(t, OnOpen(kind)) == t
            && (s.connection.CONNECTED? && s.transceiver == Some(kind) ==> t == s)
            && (s.connection.CONNECTED? && s.transceiver.Some? && s.transceiver != Some(kind) ==>
                  t.log == s.log + [DisconnectTransport(s.transceiver.value), Opened(kind)])
            && (!s.connection.CONNECTED? || s.transceiver.None? ==> t.log == s.log + [Opened(kind)])
  {
    assert forall a, b :: s.log + [a] + [b] == s.log + [a, b];
  }

  predicate NothingOpens(steps: seq<Step>) { forall i :: 0 <= i < |steps| ==> !steps[i].OnOpen? && !steps[i].Connect? && !steps[i].RunReconnect? }

  lemma {:induction false} StaysDown(s: State, steps: seq<Step>)
    requires s.connection.DISCONNECTED? && NothingOpens(steps)
    ensures Run(s, steps).connection.DISCONNECTED? && Run(s, steps).log == s.log
    decreases |steps|
  {
    if steps != [] {
      assert !steps[0].OnOpen? && !steps[0].Connect? && !steps[0].RunReconnect?;
      StaysDown(Do(s, steps[0]), steps[1..]);
    }
  }

  /** Disabling the debug channel over USB puts the core down at once, and silently: whatever
      ends are reported after it, nobody is told until something connects or opens again. */
  lemma DisableIsSilent(s: State, steps: seq<Step>)
    requires s.transceiver == Some(Usb) && NothingOpens(steps)
    ensures var t := Run(Do(s, DisableChannel), steps);
            t.connection.DISCONNECTED? && t.log == s.log
  {
    StaysDown(Do(s, DisableChannel), steps);
  }

  /** A USB open takes the WebSocket link down; late ends of that link change nothing, and the
      end of the USB link is told to the listeners. */
  lemma UsbTakesOver(s: State, forbidden: bool)
    requires s.connection.CONNECTED? && s.transceiver == Some(WebSocket)
    ensures var t := Do(s, OnOpen(Usb));
            && t.connection.CONNECTED? && t.transceiver == Some(Usb)
            && t.log == s.log + [DisconnectTransport(WebSocket), Opened(Usb)]
            && Do(t, OnClosed(WebSocket, forbidden)) == t && Do(t, OnFailure(WebSocket)) == t
            && Do(t, OnClosed(Usb, forbidden)).log == Do(t, OnFailure(Usb)).log == t.log + [Ended(Usb)]
            && Do(t, OnClosed(Usb, forbidden)).connection.DISCONNECTED? && Do(t, OnFailure(Usb)).connection.DISCONNECTED?
  {
    assert s.log + [DisconnectTransport(WebSocket)] + [Opened(Usb)] == s.log + [DisconnectTransport(WebSocket), Opened(Usb)];
  }

  predicate NoWebSocketOpen(steps: seq<Step>) {
    forall i :: 0 <= i < |steps| ==> steps[i] != OnOpen(WebSocket)
  }

  lemma {:induction false} StaysOffWebSocket(s: State, steps: seq<Step>)
    requires s.transceiver != Some(WebSocket) && NoWebSocketOpen(steps)
    ensures Run(s, steps).transceiver != Some(WebSocket)
    decreases |steps|
  {
    if steps != [] {
      assert steps[0] != OnOpen(WebSocket);
      StaysOffWebSocket(Do(s, steps[0]), steps[1..]);
    }
  }

  /** WebSocketTask reports a failure and then its close: the failure costs at most one
      reconnect, and the close changes nothing, however late it comes, unless a WebSocket has
      opened in between. */
  lemma CloseAfterFailureIsFree(start: State, before: seq<Step>, between: seq<Step>, forbidden: bool)
    requires Initial(start) && NoWebSocketOpen(between)
    ensures var s := Run(start, before);
            var failed := Do(s, OnFailure(WebSocket));
            var r := Run(failed, between);
            failed.pending <= s.pending + 1 && Do(r, OnClosed(WebSocket, forbidden)) == r
  {
    RunKeepsTransport(start, before);
    StaysOffWebSocket(Do(Run(start, before), OnFailure(WebSocket)), between);
  }

  /** CONNECTED does not promise a transceiver: Disconnect clears the pointer only. */
  lemma ConnectedWithoutTransceiver(start: State)
    requires Initial(start)
    ensures var s := Run(start, [OnOpen(Usb), Disconnect]);
            s.connection.CONNECTED? && s.transceiver.None?
  {
    var steps := [OnOpen(Usb), Disconnect];
    assert steps[1..] == [Disconnect] && steps[1..][1..] == [];
    assert Run(Do(start, OnOpen(Usb)), [Disconnect]) == Do(Do(start, OnOpen(Usb)), Disconnect);
  }

  /** The last time the transport was touched, it was taken down. */
  predicate TakenDown(log: seq<Entry>) {
    |log| > 0 &&
    match log[|log| - 1]
    case DisconnectTransport(_) => true
    case Opened(_) => false
    case _ => TakenDown(log[..|log| - 1])
  }

  lemma TakenDownSnoc(log: seq<Entry>, e: Entry)
    ensures TakenDown(log + [e]) == match e case DisconnectTransport(_) => true case Opened(_) => false case _ => TakenDown(log)
  {
    assert (log + [e])[..|log|] == log;
  }

  predicate LinkInv(s: State) {
    s.connection.CONNECTED? ==> (s.transceiver.None? <==> TakenDown(s.log))
  }

  lemma DoKeepsLink(s: State, step: Step)
    requires LinkInv(s)
    ensures LinkInv(Do(s, step))
  {
    match step
    case OnOpen(kind) =>
      var s1 := if s.connection.CONNECTED? && s.transceiver.Some?
                then Note(s, DisconnectTransport(s.transceiver.value)) else s;
      TakenDownSnoc(s1.log, Opened(kind));
    case Disconnect =>
      if s.transceiver.Some? { TakenDownSnoc(s.log, DisconnectTransport(s.transceiver.value)); }
    case _ =>
  }

  lemma {:induction false} RunKeepsLink(s: State, steps: seq<Step>)
    requires LinkInv(s)
    ensures LinkInv(Run(s, steps))
    decreases |steps|
  {
    if steps != [] {
      DoKeepsLink(s, steps[0]);
      RunKeepsLink(Do(s, steps[0]), steps[1..]);
    }
  }

  /** A CONNECTED core lacks a transceiver exactly when Disconnect came after the last open. */
  lemma ConnectedLacksTransceiverIff(start: State, steps: seq<Step>)
    requires Initial(start)
    ensures var s := Run(start, steps);
            s.connection.CONNECTED? ==> (s.transceiver.None? <==> TakenDown(s.log))
  {
    RunKeepsLink(start, steps);
  }
}
