/** The coalescing protocol of DebugRouterCore::UpdateServerState as interleaved atomic
    steps. Any number of callers flip a flag, raise `dirty` and try to claim the one
    `scheduled` token; one executor thread runs the posted task. Memory is sequentially
    consistent. Callers carry no state but their program point, so the model keeps only
    how many of them stand at each point. */
module ServerState {

  // kTransceiverCount
  const TRANSCEIVERS: nat := 2

  /** Where the posted task stands: the constructor names its next atomic operation. */
  datatype TaskPc =
    | Idle
    | ClearDirty
    | LoadAllSessions
    | LoadDebugChannel
    | ExchangeRunning(shouldRun: bool)
    | CommandServer(start: bool, transceiver: nat)
    | LoadDirty
    | ReleaseToken
    | RecheckDirty
    | ReclaimToken

  /** One StartServer (or StopServer) call issued by the update task. */
  datatype Command = Command(transceiver: nat, start: bool)

  datatype State = State(
    allSessions: bool,      // enable_all_sessions_
    debugChannel: bool,     // debug_channel_enabled_
    dirty: bool,            // server_state_update_dirty_
    scheduled: bool,        // server_state_update_scheduled_
    running: bool,          // server_running_
    storing: nat,           // callers about to store dirty
    claiming: nat,          // callers about to exchange scheduled
    posting: nat,           // callers about to post the update task
    queued: nat,            // tasks in the executor queue
    task: TaskPc,
    commands: seq<Command>, // every server command so far
    calls: nat,             // UpdateServerState calls that have stored dirty
    iterations: nat)        // loop iterations begun over all tasks
  {
    /** What ShouldServerRun would answer if its two loads were one. */
    predicate Wanted() { allSessions || debugChannel }

    /** No caller is mid-call and no update task is queued or running. */
    predicate Quiescent() {
      storing == 0 && claiming == 0 && posting == 0 && queued == 0 && task.Idle?
    }
  }

  const INITIAL: State :=
    State(false, false, false, false, false, 0, 0, 0, 0, Idle, [], 0, 0)

  datatype Step =
    | EnableAllSessions | EnableDebugChannel | DisableDebugChannel  // a new request
    | StoreDirty | ClaimToken | Post                                // a caller moves on
    | StartTask | TaskStep                                          // the executor moves on

  predicate Request(step: Step) {
    step.EnableAllSessions? || step.EnableDebugChannel? || step.DisableDebugChannel?
  }

  predicate Enabled(s: State, step: Step) {
    match step
    case StoreDirty => s.storing > 0
    case ClaimToken => s.claiming > 0
    case Post => s.posting > 0
    case StartTask => s.task.Idle? && s.queued > 0
    case TaskStep => !s.task.Idle?
    case _ => true
  }

  /** The effect of one atomic step; a step that is not enabled changes nothing. */
  function Do(s: State, step: Step): (r: State) {
    if !Enabled(s, step) then s else
    match step
    case EnableAllSessions =>
      if s.allSessions then s else s.(allSessions := true, storing := s.storing + 1)
    case EnableDebugChannel =>
      if s.debugChannel then s else s.(debugChannel := true, storing := s.storing + 1)
    case DisableDebugChannel =>
      if !s.debugChannel then s else s.(debugChannel := false, storing := s.storing + 1)
    case StoreDirty =>
      s.(dirty := true, storing := s.storing - 1, claiming := s.claiming + 1, calls := s.calls + 1)
    case ClaimToken =>
      s.(scheduled := true, claiming := s.claiming - 1,
         posting := if s.scheduled then s.posting else s.posting + 1)
    case Post => s.(posting := s.posting - 1, queued := s.queued + 1)
    case StartTask => s.(queued := s.queued - 1, task := ClearDirty)
    case TaskStep => DoTask(s)
  }

  function DoTask(s: State): (r: State)
    requires !s.task.Idle?
  {
    match s.task
    case ClearDirty => s.(dirty := false, task := LoadAllSessions, iterations := s.iterations + 1)
    case LoadAllSessions =>
      s.(task := if s.allSessions then ExchangeRunning(true) else LoadDebugChannel)
    case LoadDebugChannel => s.(task := ExchangeRunning(s.debugChannel))
    case ExchangeRunning(b) =>
      s.(running := b, task := if s.running != b then CommandServer(b, 0) else LoadDirty)
    case CommandServer(b, i) =>
      s.(commands := s.commands + [Command(i, b)],
         task := if i + 1 < TRANSCEIVERS then CommandServer(b, i + 1) else LoadDirty)
    case LoadDirty => s.(task := if s.dirty then ClearDirty else ReleaseToken)
    case ReleaseToken => s.(scheduled := false, task := RecheckDirty)
    case RecheckDirty => s.(task := if s.dirty then ReclaimToken else Idle)
    case ReclaimToken => s.(scheduled := true, task := if s.scheduled then Idle else ClearDirty)
  }

  function Run(s: State, steps: seq<Step>): (r: State)
    decreases |steps|
  {
    if steps == [] then s else Run(Do(s, steps[0]), steps[1..])
  }

  // ---------------------------------------------------------------- the token invariant

  /** The task holds the token from its start until it releases `scheduled`. */
  predicate Owns(task: TaskPc) {
    !task.Idle? && !task.RecheckDirty? && !task.ReclaimToken?
  }

  /** `scheduled` is true iff exactly one caller about to post, queued task or owning task exists. */
  predicate TokenInv(s: State) {
    s.posting + s.queued + (if Owns(s.task) then 1 else 0) == if s.scheduled then 1 else 0
  }

  /** A stale `running` always has someone left who will notice. */
  predicate FreshInv(s: State) {
    match s.task
    case Idle => s.running == s.Wanted() || s.storing > 0 || s.scheduled || (s.dirty && s.claiming > 0)
    case ClearDirty => true
    case LoadAllSessions => true
    case LoadDebugChannel => !s.allSessions || s.storing > 0 || s.dirty
    case ExchangeRunning(b) => b == s.Wanted() || s.storing > 0 || s.dirty
    case ReclaimToken => s.dirty
    case _ => s.running == s.Wanted() || s.storing > 0 || s.dirty
  }

  /** The command log is a prefix of start-all, stop-all, start-all, ... and the update task is
      never ahead of or behind it. */
  predicate CommandInv(s: State) {
    && (forall k :: 0 <= k < |s.commands| ==>
          s.commands[k] == Command(k % TRANSCEIVERS, (k / TRANSCEIVERS) % 2 == 0))
    && (if s.task.CommandServer? then
          && s.task.transceiver == |s.commands| % TRANSCEIVERS
          && s.running == s.task.start
          && s.running == ((|s.commands| / TRANSCEIVERS) % 2 == 0)
        else
          && |s.commands| % TRANSCEIVERS == 0
          && s.running == ((|s.commands| / TRANSCEIVERS) % 2 == 1))
  }

  /** Iterations begun, plus every iteration already owed, against the calls made. Until
      the first iteration the raised `dirty` owes nothing: that iteration absorbs it. */
  predicate WorkInv(s: State) {
    && (s.iterations == 0 ==> s.task.Idle? || s.task.ClearDirty?)
    && s.iterations + s.claiming + s.posting + s.queued
       + (if s.task.ClearDirty? then 1 else 0)
       + (if s.dirty && !s.task.ClearDirty? && s.iterations > 0 then 1 else 0)
       <= if s.calls == 0 then 0 else 2 * s.calls - 1
  }

  predicate Inv(s: State) { TokenInv(s) && FreshInv(s) && CommandInv(s) && WorkInv(s) }

  lemma DoKeepsToken(s: State, step: Step)
    requires TokenInv(s)
    ensures TokenInv(Do(s, step))
  {
    if step.TaskStep? && !s.task.Idle? { TaskKeepsToken(s); }
  }

  lemma TaskKeepsToken(s: State)
    requires TokenInv(s) && !s.task.Idle?
    ensures TokenInv(DoTask(s))
  {
    if !s.task.ReleaseToken? && !s.task.RecheckDirty? && !s.task.ReclaimToken? {
      KeepsOwning(s);
    }
  }

  lemma KeepsOwning(s: State)
    requires Owns(s.task) && !s.task.ReleaseToken?
    ensures var r := DoTask(s);
            Owns(r.task) && r.scheduled == s.scheduled && r.posting == s.posting && r.queued == s.queued
  {
  }

  lemma DoKeepsFresh(s: State, step: Step)
    requires TokenInv(s) && FreshInv(s)
    ensures FreshInv(Do(s, step))
  {
    if step.TaskStep? && !s.task.Idle? { TaskKeepsFresh(s); }
  }

  lemma TaskKeepsFresh(s: State)
    requires TokenInv(s) && FreshInv(s) && !s.task.Idle?
    ensures FreshInv(DoTask(s))
  {
  }

  lemma DoKeepsCommands(s: State, step: Step)
    requires CommandInv(s)
    ensures CommandInv(Do(s, step))
  {
    if step.TaskStep? && s.task.CommandServer? {
      OneMoreCommand(s);
    } else if step.TaskStep? && !s.task.Idle? {
      assert DoTask(s).commands == s.commands;
    } else {
      assert Do(s, step).commands == s.commands && Do(s, step).running == s.running;
    }
  }

  lemma OneMoreCommand(s: State)
    requires CommandInv(s) && s.task.CommandServer?
    ensures CommandInv(DoTask(s))
  {
    var n, m := |s.commands|, |s.commands| + 1;
    assert n % 2 == 0 ==> m % 2 == 1 && m / 2 == n / 2;
    assert n % 2 == 1 ==> m % 2 == 0 && m / 2 == n / 2 + 1;
  }

  lemma DoKeepsWork(s: State, step: Step)
    requires FreshInv(s) && WorkInv(s)
    ensures WorkInv(Do(s, step))
  {
    if step.TaskStep? && !s.task.Idle? { TaskKeepsWork(s); }
  }

  lemma TaskKeepsWork(s: State)
    requires FreshInv(s) && WorkInv(s) && !s.task.Idle?
    ensures WorkInv(DoTask(s))
  {
  }

  lemma DoKeepsInv(s: State, step: Step)
    requires Inv(s)
    ensures Inv(Do(s, step))
  {
    DoKeepsToken(s, step);
    DoKeepsFresh(s, step);
    DoKeepsCommands(s, step);
    DoKeepsWork(s, step);
  }

  lemma {:induction false} RunKeepsInv(s: State, steps: seq<Step>)
    requires Inv(s)
    ensures Inv(Run(s, steps))
    decreases |steps|
  {
    if steps != [] {
      DoKeepsInv(s, steps[0]);
      RunKeepsInv(Do(s, steps[0]), steps[1..]);
    }
  }

  // ---------------------------------------------------------------- quiescence

  /** Whether transceiver t was last told to start. */
  function ServerOn(commands: seq<Command>, t: nat): (on: bool) {
    if commands == [] then false
    else if commands[|commands| - 1].transceiver == t then commands[|commands| - 1].start
    else ServerOn(commands[..|commands| - 1], t)
  }

  /** The last request about the debug channel, if any, was to enable it. */
  predicate ChannelOn(steps: seq<Step>) {
    exists i :: 0 <= i < |steps| && steps[i].EnableDebugChannel? && DisableDebugChannel !in steps[i + 1..]
  }

  /** What the requests made so far ask for. */
  predicate Asked(steps: seq<Step>) { EnableAllSessions in steps || ChannelOn(steps) }

  lemma ChannelOnCons(x: Step, rest: seq<Step>)
    ensures ChannelOn([x] + rest) <==> ChannelOn(rest) || (x.EnableDebugChannel? && DisableDebugChannel !in rest)
  {
    var steps := [x] + rest;
    if ChannelOn(rest) {
      var i :| 0 <= i < |rest| && rest[i].EnableDebugChannel? && DisableDebugChannel !in rest[i + 1..];
      assert steps[i + 1].EnableDebugChannel? && steps[i + 2..] == rest[i + 1..];
    }
    if ChannelOn(steps) {
      var i :| 0 <= i < |steps| && steps[i].EnableDebugChannel? && DisableDebugChannel !in steps[i + 1..];
      if i > 0 {
        assert rest[i - 1].EnableDebugChannel? && rest[i..] == steps[i + 1..];
      } else {
        assert steps[1..] == rest;
      }
    }
    assert steps[1..] == rest && steps[0] == x;
  }

  lemma DoFlags(s: State, step: Step)
    ensures var r := Do(s, step);
            && r.allSessions == (s.allSessions || step.EnableAllSessions?)
            && r.debugChannel == (if step.EnableDebugChannel? then true else if step.DisableDebugChannel? then false else s.debugChannel)
  {
    if step.TaskStep? && !s.task.Idle? {
      TaskKeepsFlags(s);
    }
  }

  /** What the update task leaves alone. */
  lemma TaskKeepsFlags(s: State)
    requires !s.task.Idle?
    ensures var r := DoTask(s);
            r.allSessions == s.allSessions && r.debugChannel == s.debugChannel && r.storing == s.storing && r.calls == s.calls
  {
  }

  /** The flags are what the requests made them, whoever else moves in between. */
  lemma {:induction false} FlagsFollowRequests(s: State, steps: seq<Step>)
    ensures var r := Run(s, steps);
            && (r.allSessions <==> s.allSessions || EnableAllSessions in steps)
            && (r.debugChannel <==> ChannelOn(steps) || (s.debugChannel && DisableDebugChannel !in steps))
    decreases |steps|
  {
    if steps != [] {
      DoFlags(s, steps[0]);
      FlagsFollowRequests(Do(s, steps[0]), steps[1..]);
      ChannelOnCons(steps[0], steps[1..]);
      assert steps == [steps[0]] + steps[1..];
    }
  }

  /** After every interleaving that comes to rest, the cached server state and every
      transceiver's last command are what the requests ask for: on iff all sessions were ever
      enabled or the last request about the debug channel was to enable it. */
  lemma Quiescence(steps: seq<Step>, t: nat)
    requires t < TRANSCEIVERS
    ensures var s := Run(INITIAL, steps);
            && (s.allSessions <==> EnableAllSessions in steps) && (s.debugChannel <==> ChannelOn(steps))
            && (s.Quiescent() ==> s.running == ServerOn(s.commands, t) == Asked(steps))
  {
    FlagsFollowRequests(INITIAL, steps);
    RunKeepsInv(INITIAL, steps);
    var s := Run(INITIAL, steps);
    if s.Quiescent() { LastRound(s, t); }
  }

  lemma LastRound(s: State, t: nat)
    requires CommandInv(s) && !s.task.CommandServer? && t < TRANSCEIVERS
    ensures ServerOn(s.commands, t) == s.running
  {
    var n := |s.commands|;
    if n > 0 {
      assert n >= 2 && (n - 1) % 2 == 1 && (n - 2) % 2 == 0;
      assert (n - 1) / 2 == n / 2 - 1 && (n - 2) / 2 == n / 2 - 1;
      assert s.commands[n - 1] == Command(1, (n / 2 - 1) % 2 == 0);
      assert s.commands[n - 2] == Command(0, (n / 2 - 1) % 2 == 0);
      assert s.commands[..n - 1][n - 2] == s.commands[n - 2];
    }
  }

  /** The token: at most one task is ever in flight, and `scheduled` says whether one is. */
  lemma SingleTask(steps: seq<Step>)
    ensures var s := Run(INITIAL, steps);
            && s.posting + s.queued <= 1
            && (s.scheduled <==> s.posting + s.queued + (if Owns(s.task) then 1 else 0) == 1)
            && (!s.scheduled <==> s.posting + s.queued + (if Owns(s.task) then 1 else 0) == 0)
  {
    RunKeepsInv(INITIAL, steps);
  }

  /** Rounds strictly alternate, starting with a start round, each round reaching every
      transceiver in index order. */
  lemma RoundsAlternate(steps: seq<Step>, k: nat)
    requires k < |Run(INITIAL, steps).commands|
    ensures var c := Run(INITIAL, steps).commands[k];
            c.transceiver == k % TRANSCEIVERS && c.start == ((k / TRANSCEIVERS) % 2 == 0)
  {
    RunKeepsInv(INITIAL, steps);
  }

  // ---------------------------------------------------------------- the work bound

  /** n calls cause at most 2n - 1 loop iterations over all tasks together. */
  lemma IterationBound(steps: seq<Step>)
    ensures var s := Run(INITIAL, steps);
            && (s.calls == 0 ==> s.iterations == 0)
            && (s.calls > 0 ==> s.iterations <= 2 * s.calls - 1)
  {
    RunKeepsInv(INITIAL, steps);
  }

  /** A lone call whose task has applied the flags. */
  function FirstCall(toggle: Step): (steps: seq<Step>) {
    [toggle, StoreDirty] + [ClaimToken, Post, StartTask] + Ticks(6)
  }

  /** A caller stores dirty while the update task is still looping, and claims the token only
      after the update task has absorbed that store and gone idle. */
  function LateCall(toggle: Step): (steps: seq<Step>) {
    [toggle, StoreDirty] + Ticks(10) + [ClaimToken, Post, StartTask] + Ticks(4)
  }

  function Ticks(n: nat): (steps: seq<Step>)
    ensures |steps| == n
  {
    seq(n, i => TaskStep)
  }

  /** Applies the update task's next n operations with nobody else moving. */
  function Tick(s: State, n: nat): (r: State)
    decreases n
  {
    if n == 0 then s else Tick(Do(s, TaskStep), n - 1)
  }

  lemma {:induction false} RunTicks(s: State, n: nat)
    ensures Run(s, Ticks(n)) == Tick(s, n)
    decreases n
  {
    if n > 0 {
      assert Ticks(n)[1..] == Ticks(n - 1);
      RunTicks(Do(s, TaskStep), n - 1);
    }
  }

  lemma {:induction false} RunConcat(s: State, a: seq<Step>, b: seq<Step>)
    ensures Run(s, a + b) == Run(Run(s, a), b)
    decreases |a|
  {
    if a == [] {
      assert a + b == b;
    } else {
      assert (a + b)[1..] == a[1..] + b;
      RunConcat(Do(s, a[0]), a[1..], b);
    }
  }

  /** The task has just applied the flags and is about to look at dirty; nobody else is active. */
  predicate Settling(s: State) {
    && !s.allSessions && s.running == s.debugChannel && !s.dirty && s.scheduled
    && s.storing == 0 && s.claiming == 0 && s.posting == 0 && s.queued == 0
    && s.task == LoadDirty
  }

  function Toggle(s: State): (step: Step) {
    if s.debugChannel then DisableDebugChannel else EnableDebugChannel
  }

  lemma RunTwo(s: State, a: Step, b: Step)
    ensures Run(s, [a, b]) == Do(Do(s, a), b)
  {
    assert [a, b][1..] == [b];
    assert [b][1..] == [] && Run(Do(s, a), [b]) == Run(Do(Do(s, a), b), []);
  }

  lemma RunThree(s: State, a: Step, b: Step, c: Step)
    ensures Run(s, [a, b, c]) == Do(Do(Do(s, a), b), c)
  {
    assert [a, b, c] == [a] + [b, c];
    RunTwo(Do(s, a), b, c);
  }

  lemma LateCallStages(s: State, toggle: Step)
    ensures Run(s, LateCall(toggle)) ==
            Tick(Do(Do(Do(Tick(Do(Do(s, toggle), StoreDirty), 10), ClaimToken), Post), StartTask), 4)
  {
    var head, mid := [toggle, StoreDirty], [ClaimToken, Post, StartTask];
    RunConcat(s, head + Ticks(10) + mid, Ticks(4));
    RunConcat(s, head + Ticks(10), mid);
    RunConcat(s, head, Ticks(10));
    RunTwo(s, toggle, StoreDirty);
    RunTicks(Run(s, head), 10);
    RunThree(Run(s, head + Ticks(10)), ClaimToken, Post, StartTask);
    RunTicks(Run(s, head + Ticks(10) + mid), 4);
  }

  lemma LateCallCostsTwo(s: State)
    requires Settling(s)
    ensures var r := Run(s, LateCall(Toggle(s)));
            Settling(r) && r.calls == s.calls + 1 && r.iterations == s.iterations + 2
  {
    LateCallStages(s, Toggle(s));
    var s1 := Do(Do(s, Toggle(s)), StoreDirty);
    TickTen(s1, 10);
    WholeIteration(s1);
    TickFour(Do(Do(Do(Tick(s1, 10), ClaimToken), Post), StartTask));
  }

  lemma {:induction false} TickPlus(s: State, m: nat, n: nat)
    ensures Tick(s, m + n) == Tick(Tick(s, m), n)
    decreases m
  {
    if m > 0 { TickPlus(Do(s, TaskStep), m - 1, n); }
  }

  /** Three task operations. */
  function Three(s: State): (r: State) { Do(Do(Do(s, TaskStep), TaskStep), TaskStep) }

  lemma TickThree(s: State)
    ensures Tick(s, 3) == Three(s)
  {
    var s1 := Do(s, TaskStep);
    assert Tick(s1, 2) == Do(Do(s1, TaskStep), TaskStep);
  }

  lemma TickSix(s: State, n: nat)
    requires n == 6
    ensures Tick(s, n) == Three(Three(s))
  {
    TickPlus(s, 3, 3);
    TickThree(s);
    TickThree(Tick(s, 3));
  }

  lemma TickTen(s: State, n: nat)
    requires n == 10
    ensures Tick(s, n) == Three(Three(Three(Do(s, TaskStep))))
  {
    var s1 := Do(s, TaskStep);
    TickPlus(s1, 6, 3);
    TickSix(s1, 6);
    TickThree(Tick(s1, 6));
    assert Tick(s, 10) == Tick(s1, 9);
  }

  /** An iteration that finds the servers out of date: reads the flags ... */
  lemma ReadsFlags(s: State)
    requires s.task == ClearDirty && !s.allSessions
    ensures Three(s) == s.(dirty := false, iterations := s.iterations + 1, task := ExchangeRunning(s.debugChannel))
  {
  }

  /** ... and commands both servers. */
  lemma CommandsServers(s: State, b: bool)
    requires s.task == ExchangeRunning(b) && s.running != b
    ensures Three(s) == s.(running := b, task := LoadDirty,
                           commands := s.commands + [Command(0, b)] + [Command(1, b)])
  {
  }

  lemma GoesIdle(s: State)
    requires s.task == LoadDirty && !s.dirty
    ensures Three(s) == s.(scheduled := false, task := Idle)
  {
  }

  lemma WholeIteration(s: State)
    requires s.task == LoadDirty && s.dirty && !s.allSessions && s.running != s.debugChannel
    ensures Three(Three(Three(Do(s, TaskStep)))) ==
            s.(dirty := false, scheduled := false, running := s.debugChannel, iterations := s.iterations + 1, task := Idle,
               commands := s.commands + [Command(0, s.debugChannel)] + [Command(1, s.debugChannel)])
  {
    var s1 := Do(s, TaskStep);
    ReadsFlags(s1);
    CommandsServers(Three(s1), s.debugChannel);
    GoesIdle(Three(Three(s1)));
  }

  lemma TickFour(s: State)
    requires s.task == ClearDirty && !s.allSessions && s.running == s.debugChannel
    ensures Tick(s, 4) == s.(dirty := false, iterations := s.iterations + 1, task := LoadDirty)
  {
    var s2 := Do(Do(s, TaskStep), TaskStep);
    assert Tick(s2, 2) == Do(Do(s2, TaskStep), TaskStep);
  }

  function WorstRun(start: State, n: nat): (steps: seq<Step>)
    requires n >= 1
    decreases n
  {
    if n == 1 then FirstCall(EnableDebugChannel)
    else WorstRun(start, n - 1) + LateCall(Toggle(Run(start, WorstRun(start, n - 1))))
  }

  /** Nothing has happened yet, as in INITIAL. */
  predicate Untouched(s: State) {
    && !s.allSessions && !s.debugChannel && !s.dirty && !s.scheduled && !s.running
    && s.storing == 0 && s.claiming == 0 && s.posting == 0 && s.queued == 0
    && s.task == Idle && s.calls == 0 && s.iterations == 0
  }

  lemma FirstTaskStarts(s: State, toggle: Step)
    requires Untouched(s) && toggle.EnableDebugChannel?
    ensures Do(Do(Do(Do(Do(s, toggle), StoreDirty), ClaimToken), Post), StartTask) ==
            s.(debugChannel := true, dirty := true, scheduled := true, task := ClearDirty, calls := 1)
  {
  }

  lemma FirstIteration(s: State)
    requires s.task == ClearDirty && !s.allSessions && s.running != s.debugChannel
    ensures Three(Three(s)) ==
            s.(dirty := false, running := s.debugChannel, iterations := s.iterations + 1, task := LoadDirty,
               commands := s.commands + [Command(0, s.debugChannel)] + [Command(1, s.debugChannel)])
  {
    ReadsFlags(s);
    CommandsServers(Three(s), s.debugChannel);
  }

  lemma FirstCallSettles(s: State, toggle: Step)
    requires Untouched(s) && toggle.EnableDebugChannel?
    ensures var r := Run(s, FirstCall(toggle));
            Settling(r) && r.calls == 1 && r.iterations == 1
  {
    FirstCallStages(s, toggle);
    FirstTaskStarts(s, toggle);
    var s1 := s.(debugChannel := true, dirty := true, scheduled := true, task := ClearDirty, calls := 1);
    TickSix(s1, 6);
    FirstIteration(s1);
  }

  lemma FirstCallStages(s: State, toggle: Step)
    ensures Run(s, FirstCall(toggle)) ==
            Tick(Do(Do(Do(Do(Do(s, toggle), StoreDirty), ClaimToken), Post), StartTask), 6)
  {
    var head, mid := [toggle, StoreDirty], [ClaimToken, Post, StartTask];
    RunConcat(s, head + mid, Ticks(6));
    RunConcat(s, head, mid);
    RunTwo(s, toggle, StoreDirty);
    RunThree(Run(s, head), ClaimToken, Post, StartTask);
    RunTicks(Run(s, head + mid), 6);
  }

  lemma {:induction false} TightFrom(start: State, n: nat)
    requires n >= 1 && Untouched(start)
    ensures var s := Run(start, WorstRun(start, n));
            Settling(s) && s.calls == n && s.iterations == 2 * n - 1
    decreases n
  {
    if n == 1 {
      FirstCallSettles(start, EnableDebugChannel);
    } else {
      TightFrom(start, n - 1);
      var s := Run(start, WorstRun(start, n - 1));
      RunConcat(start, WorstRun(start, n - 1), LateCall(Toggle(s)));
      LateCallCostsTwo(s);
    }
  }

  /** The bound is exact for every number of calls; in particular two calls can cost three
      iterations, so iterations may exceed calls. */
  lemma IterationBoundIsTight(n: nat)
    requires n >= 1
    ensures exists steps :: Run(INITIAL, steps).calls == n && Run(INITIAL, steps).iterations == 2 * n - 1
  {
    TightFrom(INITIAL, n);
  }

  /** No caller stands between its store and its exchange when the update task clears dirty. */
  predicate Prompt(s: State, steps: seq<Step>)
    decreases |steps|
  {
    steps == [] ||
    ((steps[0].TaskStep? && s.task.ClearDirty? ==> s.claiming == 0) && Prompt(Do(s, steps[0]), steps[1..]))
  }

  /** Iterations begun plus the one still owed; the token allows only one at a time. */
  predicate PromptInv(s: State) {
    && (s.claiming > 0 ==> s.dirty || s.task.ClearDirty?)
    && s.iterations + (if s.posting + s.queued > 0 || s.task.ClearDirty? || s.dirty then 1 else 0) <= s.calls
  }

  /** With prompt callers one iteration per call suffices: the excess of the bound above
      comes only from a store that is absorbed before its caller's exchange. */
  lemma PromptIterationBound(steps: seq<Step>)
    requires Prompt(INITIAL, steps)
    ensures Run(INITIAL, steps).iterations <= Run(INITIAL, steps).calls
  {
    PromptRun(INITIAL, steps);
  }

  lemma DoKeepsPrompt(s: State, step: Step)
    requires TokenInv(s) && FreshInv(s) && PromptInv(s)
    requires step.TaskStep? && s.task.ClearDirty? ==> s.claiming == 0
    ensures PromptInv(Do(s, step))
  {
  }

  lemma {:induction false} PromptRun(s: State, steps: seq<Step>)
    requires Inv(s) && PromptInv(s) && Prompt(s, steps)
    ensures PromptInv(Run(s, steps))
    decreases |steps|
  {
    if steps != [] {
      DoKeepsInv(s, steps[0]);
      DoKeepsPrompt(s, steps[0]);
      PromptRun(Do(s, steps[0]), steps[1..]);
    }
  }

  /** The step changes a flag, so that its caller goes on to UpdateServerState. */
  predicate Toggles(s: State, step: Step) {
    || (step.EnableAllSessions? && !s.allSessions)
    || (step.EnableDebugChannel? && !s.debugChannel)
    || (step.DisableDebugChannel? && s.debugChannel)
  }

  function TogglesIn(s: State, steps: seq<Step>): (n: nat)
    decreases |steps|
  {
    if steps == [] then 0 else (if Toggles(s, steps[0]) then 1 else 0) + TogglesIn(Do(s, steps[0]), steps[1..])
  }

  lemma DoCallsIfToggled(s: State, step: Step)
    ensures var r := Do(s, step);
            r.calls + r.storing == s.calls + s.storing + if Toggles(s, step) then 1 else 0
  {
    if step.TaskStep? && !s.task.Idle? {
      TaskKeepsFlags(s);
    }
  }

  /** Every request that changes a flag makes one call, and nothing else does. */
  lemma {:induction false} CallsAreToggles(s: State, steps: seq<Step>)
    ensures var r := Run(s, steps);
            r.calls + r.storing == s.calls + s.storing + TogglesIn(s, steps)
    decreases |steps|
  {
    if steps != [] {
      DoCallsIfToggled(s, steps[0]);
      CallsAreToggles(Do(s, steps[0]), steps[1..]);
    }
  }

  /** Iterations begun with `dirty` already clear. */
  function EmptyClears(s: State, steps: seq<Step>): (n: nat)
    decreases |steps|
  {
    if steps == [] then 0
    else (if steps[0].TaskStep? && s.task.ClearDirty? && !s.dirty then 1 else 0) + EmptyClears(Do(s, steps[0]), steps[1..])
  }

  /** Calls that store `dirty` while it is already raised. */
  function RepeatedStores(s: State, steps: seq<Step>): (n: nat)
    decreases |steps|
  {
    if steps == [] then 0
    else (if steps[0].StoreDirty? && s.storing > 0 && s.dirty then 1 else 0) + RepeatedStores(Do(s, steps[0]), steps[1..])
  }

  function Raised(s: State): (n: nat) { if s.dirty then 1 else 0 }

  /** Every raise of `dirty` is taken back by one iteration or still stands. */
  lemma {:induction false} RaisesBalance(s: State, steps: seq<Step>)
    ensures var r := Run(s, steps);
            r.iterations - s.iterations - EmptyClears(s, steps) + Raised(r)
            == r.calls - s.calls - RepeatedStores(s, steps) + Raised(s)
    decreases |steps|
  {
    if steps != [] {
      StepBalances(s, steps[0]);
      RaisesBalance(Do(s, steps[0]), steps[1..]);
    }
  }

  lemma StepBalances(s: State, step: Step)
    ensures var r := Do(s, step);
            r.iterations - s.iterations - (if step.TaskStep? && s.task.ClearDirty? && !s.dirty then 1 else 0) + Raised(r)
            == r.calls - s.calls - (if step.StoreDirty? && s.storing > 0 && s.dirty then 1 else 0) + Raised(s)
  {
    if step.TaskStep? && !s.task.Idle? {
      TaskCounts(s);
      TaskKeepsFlags(s);
    }
  }

  lemma TaskCounts(s: State)
    requires !s.task.Idle?
    ensures var r := DoTask(s);
            && r.dirty == (s.dirty && !s.task.ClearDirty?)
            && r.iterations == s.iterations + if s.task.ClearDirty? then 1 else 0
  {
  }

  /** Exactly when iterations stay within calls: iff no more iterations found nothing to do
      than calls found the flag raised already, counting the one it may stand for now. */
  lemma IterationsWithinCallsIff(steps: seq<Step>)
    ensures var s := Run(INITIAL, steps);
            s.iterations <= s.calls <==> EmptyClears(INITIAL, steps) <= RepeatedStores(INITIAL, steps) + Raised(s)
  {
    RaisesBalance(INITIAL, steps);
  }

  // ---------------------------------------------------------------- termination

  function Rank(task: TaskPc): (r: nat) {
    match task
    case Idle => 0
    case ReclaimToken => 1
    case RecheckDirty => 2
    case ReleaseToken => 3
    case LoadDirty => 4
    case CommandServer(_, i) => if i < TRANSCEIVERS then 4 + TRANSCEIVERS - i else 5
    case ExchangeRunning(_) => 7
    case LoadDebugChannel => 8
    case LoadAllSessions => 9
    case ClearDirty => 10
  }

  /** An upper bound on the steps left if no new request arrives. */
  function Work(s: State): (w: nat) {
    25 * s.storing + 13 * s.claiming + 12 * s.posting + 11 * s.queued + Rank(s.task)
    + (if s.dirty && !s.task.ClearDirty? then 11 else 0)
  }

  lemma WorkShrinks(s: State, step: Step)
    requires Inv(s) && Enabled(s, step) && !Request(step)
    ensures Work(Do(s, step)) < Work(s)
  {
    if step.TaskStep? {
      assert s.task.CommandServer? ==> s.task.transceiver < TRANSCEIVERS;
      TaskWorkShrinks(s);
    }
  }

  lemma TaskWorkShrinks(s: State)
    requires FreshInv(s) && !s.task.Idle? && (s.task.CommandServer? ==> s.task.transceiver < TRANSCEIVERS)
    ensures Work(DoTask(s)) < Work(s)
  {
  }

  /** Every step is enabled when it is taken and none is a new request. */
  predicate Drains(s: State, steps: seq<Step>)
    decreases |steps|
  {
    steps == [] || (Enabled(s, steps[0]) && !Request(steps[0]) && Drains(Do(s, steps[0]), steps[1..]))
  }

  lemma {:induction false} DrainsAskNothing(s: State, steps: seq<Step>)
    requires Drains(s, steps)
    ensures Run(s, steps).allSessions == s.allSessions && Run(s, steps).debugChannel == s.debugChannel
    decreases |steps|
  {
    if steps != [] {
      DoFlags(s, steps[0]);
      DrainsAskNothing(Do(s, steps[0]), steps[1..]);
    }
  }

  /** Once callers stop, at most Work(s) steps remain, whatever their order; and the
      system can only stop moving when it is quiescent. So the loop ends, and ends right. */
  lemma DrainsToQuiescence(before: seq<Step>, after: seq<Step>)
    requires Drains(Run(INITIAL, before), after)
    ensures |after| <= Work(Run(INITIAL, before))
    ensures var r := Run(Run(INITIAL, before), after);
            (forall step :: Enabled(r, step) ==> Request(step)) ==> r.Quiescent() && r.running == Asked(before)
  {
    FlagsFollowRequests(INITIAL, before);
    RunKeepsInv(INITIAL, before);
    DrainBound(Run(INITIAL, before), after);
    DrainsAskNothing(Run(INITIAL, before), after);
    RunKeepsInv(Run(INITIAL, before), after);
    AtRest(Run(Run(INITIAL, before), after));
  }

  lemma AtRest(r: State)
    requires FreshInv(r) && TokenInv(r)
    ensures (forall step :: Enabled(r, step) ==> Request(step)) ==>
              r.Quiescent() && r.running == (r.allSessions || r.debugChannel)
  {
    if forall step :: Enabled(r, step) ==> Request(step) {
      assert !Enabled(r, StoreDirty) && !Enabled(r, ClaimToken) && !Enabled(r, Post);
      assert !Enabled(r, TaskStep) && !Enabled(r, StartTask);
    }
  }

  lemma {:induction false} DrainBound(s: State, steps: seq<Step>)
    requires Inv(s) && Drains(s, steps)
    ensures |steps| <= Work(s)
    decreases |steps|
  {
    if steps != [] {
      WorkShrinks(s, steps[0]);
      DoKeepsInv(s, steps[0]);
      DrainBound(Do(s, steps[0]), steps[1..]);
    }
  }
}
