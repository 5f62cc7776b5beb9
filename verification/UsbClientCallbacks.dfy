/** The callbacks of one started UsbClient. Its reader and its writer thread run in any
    interleaving of their atomic operations; Stop, the peer and the socket decide when a
    loop ends, and are left open. Stop itself notifies nobody. */
module UsbClientCallbacks {

  /** One entry per callback and per operation that decides one. */
  datatype Entry =
    | Marked     // is_connected_ set by the reader
    | Opened     // OnOpen called
    | Errored    // OnError called
    | Exchanged  // is_connected_ taken by the thread that won closed_reported_
    | Closed     // OnClose called

  /** How often each entry occurs, and whether an exchange came after a mark. */
  datatype Tally = Tally(marked: nat, opens: nat, errors: nat, exchanged: nat, closes: nat, markThenExchange: bool)

  const NOTHING: Tally := Tally(0, 0, 0, 0, 0, false)

  function Add(t: Tally, e: Entry): (r: Tally) {
    match e
    case Marked => t.(marked := t.marked + 1)
    case Opened => t.(opens := t.opens + 1)
    case Errored => t.(errors := t.errors + 1)
    case Exchanged => t.(exchanged := t.exchanged + 1, markThenExchange := t.markThenExchange || t.marked > 0)
    case Closed => t.(closes := t.closes + 1)
  }

  function TallyOf(log: seq<Entry>): (t: Tally) {
    if log == [] then NOTHING else Add(TallyOf(log[..|log| - 1]), log[|log| - 1])
  }

  /** NotifyErrorOnce and NotifyCloseOnce, by next atomic operation. */
  datatype Notify = ErrorCas | ErrorCall | CloseCas | CloseExchange | CloseCall

  datatype Reader = Reading(first: bool) | Marking | Opening | ReaderIn(n: Notify) | ReaderDone
  datatype Writer = Taking | WriterIn(n: Notify, again: bool) | WriterDone

  datatype State = State(
    failureReported: bool,
    closedReported: bool,
    isConnected: bool,
    sendable: bool,         // OnOpen has set the connect status, so messages reach the writer
    reader: Reader,
    writer: Writer,
    log: seq<Entry>,
    tally: Tally)           // the log in numbers

  /** After StartInternal. */
  predicate Started(s: State) {
    && !s.failureReported && !s.closedReported && !s.isConnected && !s.sendable
    && s.reader == Reading(true) && s.writer.Taking? && |s.log| == 0 && s.tally == NOTHING
  }

  datatype Step =
    | ReadFrame     // a frame with a valid header
    | ReadQuietEnd  // stop, end of stream, or any failure before the first header
    | ReadLoudEnd   // a failure after the first header
    | WriteQuit     // the quit marker was taken
    | WriteFails    // send failed
    | ReaderMoves
    | WriterMoves

  /** The effect of a notification's next operation: flags, log entries, and where the
      thread goes next. */
  datatype Moved = Moved(s: State, next: Next)
  datatype Next = Over | Go(n: Notify)

  function Note(s: State, e: Entry): (r: State) { s.(log := s.log + [e], tally := Add(s.tally, e)) }

  function DoNotify(s: State, n: Notify): (m: Moved) {
    match n
    case ErrorCas => Moved(s.(failureReported := true), Go(if s.failureReported then CloseCas else ErrorCall))
    case ErrorCall => Moved(Note(s, Errored), Go(CloseCas))
    case CloseCas => Moved(s.(closedReported := true), if s.closedReported then Over else Go(CloseExchange))
    case CloseExchange =>
      Moved(Note(s, Exchanged).(isConnected := false), if s.isConnected then Go(CloseCall) else Over)
    case CloseCall => Moved(Note(s, Closed), Over)
  }

  function Do(s: State, step: Step): (r: State) {
    match step
    case ReadFrame => if s.reader == Reading(true) then s.(reader := Marking) else s
    case ReadQuietEnd => if s.reader.Reading? then s.(reader := ReaderIn(CloseCas)) else s
    case ReadLoudEnd => if s.reader == Reading(false) then s.(reader := ReaderIn(ErrorCas)) else s
    case WriteQuit => if s.writer.Taking? then s.(writer := WriterIn(CloseCas, false)) else s
    case WriteFails => if s.writer.Taking? && s.sendable then s.(writer := WriterIn(ErrorCas, true)) else s
    case ReaderMoves => DoReader(s)
    case WriterMoves => DoWriter(s)
  }

  function DoReader(s: State): (r: State) {
    match s.reader
    case Marking => Note(s, Marked).(isConnected := true, reader := Opening)
    case Opening => Note(s, Opened).(sendable := true, reader := Reading(false))
    case ReaderIn(n) =>
      var m := DoNotify(s, n);
      m.s.(reader := if m.next.Over? then ReaderDone else ReaderIn(m.next.n))
    case _ => s
  }

  /** After a failed send the writer notifies close twice: in the loop and behind it. */
  function DoWriter(s: State): (r: State) {
    match s.writer
    case WriterIn(n, again) =>
      var m := DoNotify(s, n);
      m.s.(writer := if m.next.Go? then WriterIn(m.next.n, again)
                     else if again then WriterIn(CloseCas, false) else WriterDone)
    case _ => s
  }

  function Run(s: State, steps: seq<Step>): (r: State)
    decreases |steps|
  {
    if steps == [] then s else Run(Do(s, steps[0]), steps[1..])
  }

  // ---------------------------------------------------------------- what every step keeps

  function At(s: State, n: Notify): (k: nat) {
    (if s.reader == ReaderIn(n) then 1 else 0) + (if s.writer.WriterIn? && s.writer.n == n then 1 else 0)
  }

  /** Each once-only flag stands for one operation done or about to be done. */
  predicate FlagsInv(s: State) {
    && s.tally.errors + At(s, ErrorCall) == (if s.failureReported then 1 else 0)
    && s.tally.exchanged + At(s, CloseExchange) == (if s.closedReported then 1 else 0)
  }

  /** OnClose is called, or about to be, iff an exchange came after the mark. */
  predicate ClosesInv(s: State) {
    var t := s.tally;
    && t.closes + At(s, CloseCall) == (if t.markThenExchange then 1 else 0)
    && (t.markThenExchange ==> t.marked > 0 && t.exchanged > 0)
    && s.isConnected == (t.marked > 0 && !t.markThenExchange)
  }

  predicate ThreadsInv(s: State) {
    var t := s.tally;
    && t.marked <= 1 && t.opens + (if s.reader.Opening? then 1 else 0) == t.marked
    && (s.reader == Reading(true) || s.reader.Marking? ==> t.marked == 0)
    && (s.reader == Reading(false) || s.reader == ReaderIn(ErrorCas) || s.reader == ReaderIn(ErrorCall) ==> t.opens == 1)
    && s.sendable == (t.opens == 1)
    && (s.writer.WriterIn? && (s.writer.n.ErrorCas? || s.writer.n.ErrorCall?) ==> s.sendable)
    // a thread leaves its close notification only when the notification is decided
    && (s.reader.ReaderDone? || s.writer.WriterDone? ==> s.closedReported)
  }

  predicate Inv(s: State) { FlagsInv(s) && ClosesInv(s) && ThreadsInv(s) }

  lemma ReaderKeepsFlags(s: State)
    requires Inv(s)
    ensures FlagsInv(DoReader(s))
  {
    if s.reader.ReaderIn? {
      ReaderNotifyKeepsFlags(s);
    }
  }

  lemma ReaderNotifyKeepsFlags(s: State)
    requires Inv(s) && s.reader.ReaderIn?
    ensures FlagsInv(DoReader(s))
  {
    match s.reader.n
    case ErrorCas =>
    case ErrorCall =>
    case CloseCas =>
    case CloseExchange =>
    case CloseCall =>
  }

  lemma ReaderKeepsCloses(s: State)
    requires Inv(s)
    ensures ClosesInv(DoReader(s))
  {
    if s.reader.ReaderIn? {
      ReaderNotifyKeepsCloses(s);
    }
  }

  lemma ReaderNotifyKeepsCloses(s: State)
    requires Inv(s) && s.reader.ReaderIn?
    ensures ClosesInv(DoReader(s))
  {
    match s.reader.n
    case ErrorCas =>
    case ErrorCall =>
    case CloseCas =>
    case CloseExchange =>
    case CloseCall =>
  }

  lemma ReaderKeepsThreads(s: State)
    requires Inv(s)
    ensures ThreadsInv(DoReader(s))
  {
  }

  lemma WriterKeepsFlags(s: State)
    requires Inv(s)
    ensures FlagsInv(DoWriter(s))
  {
  }

  lemma WriterKeepsCloses(s: State)
    requires Inv(s)
    ensures ClosesInv(DoWriter(s))
  {
  }

  lemma WriterKeepsThreads(s: State)
    requires Inv(s)
    ensures ThreadsInv(DoWriter(s))
  {
  }

  lemma DoKeepsInv(s: State, step: Step)
    requires Inv(s)
    ensures Inv(Do(s, step))
  {
    if step.ReaderMoves? {
      ReaderKeepsFlags(s);
      ReaderKeepsCloses(s);
      ReaderKeepsThreads(s);
    } else if step.WriterMoves? {
      WriterKeepsFlags(s);
      WriterKeepsCloses(s);
      WriterKeepsThreads(s);
    }
  }

  // ---------------------------------------------------------------- the log itself

  /** Each entry is preceded by what must come before it. */
  predicate Ordered(log: seq<Entry>) {
    forall i :: 0 <= i < |log| ==> Allowed(TallyOf(log[..i]), log[i])
  }

  predicate Allowed(t: Tally, e: Entry) {
    match e
    case Opened => t.marked > 0 && t.opens == 0
    case Errored => t.opens > 0 && t.errors == 0
    case Closed => t.marked > 0 && t.closes == 0 && t.markThenExchange
    case _ => true
  }

  predicate Linked(s: State) { s.tally == TallyOf(s.log) && Ordered(s.log) }

  lemma NoteKeepsLink(s: State, e: Entry)
    requires Linked(s) && Allowed(s.tally, e)
    ensures Linked(Note(s, e))
  {
    var t := s.log + [e];
    assert t[..|s.log|] == s.log;
    forall i | 0 <= i < |t| ensures Allowed(TallyOf(t[..i]), t[i]) {
      assert t[..i] == s.log[..i];
    }
  }

  /** A step notes at most one entry, and an allowed one. */
  lemma StepNotes(s: State, step: Step)
    requires Inv(s)
    ensures var r := Do(s, step);
            || (r.log == s.log && r.tally == s.tally)
            || exists e :: Allowed(s.tally, e) && r.log == Note(s, e).log && r.tally == Note(s, e).tally
  {
    var e := if step.ReaderMoves? && s.reader.Marking? then Marked
             else if step.ReaderMoves? && s.reader.Opening? then Opened
             else if step.ReaderMoves? && s.reader.ReaderIn? then NotifyEntry(s.reader.n)
             else if step.WriterMoves? && s.writer.WriterIn? then NotifyEntry(s.writer.n)
             else Marked;
    assert Do(s, step).log == s.log || Do(s, step).log == Note(s, e).log;
  }

  function NotifyEntry(n: Notify): (e: Entry) {
    match n
    case ErrorCall => Errored
    case CloseExchange => Exchanged
    case CloseCall => Closed
    case _ => Marked
  }

  lemma {:induction false} RunKeepsInv(s: State, steps: seq<Step>)
    requires Inv(s) && Linked(s)
    ensures Inv(Run(s, steps)) && Linked(Run(s, steps))
    decreases |steps|
  {
    if steps != [] {
      var r := Do(s, steps[0]);
      DoKeepsInv(s, steps[0]);
      StepNotes(s, steps[0]);
      if r.log != s.log {
        var e :| Allowed(s.tally, e) && r.log == Note(s, e).log && r.tally == Note(s, e).tally;
        NoteKeepsLink(s, e);
      }
      RunKeepsInv(r, steps[1..]);
    }
  }

  // ---------------------------------------------------------------- whole runs

  lemma StartedHolds(start: State)
    requires Started(start)
    ensures Inv(start) && Linked(start)
  {
  }

  /** OnOpen, OnError and OnClose each fire at most once, whatever the interleaving. */
  lemma CallbacksFireOnce(start: State, steps: seq<Step>)
    requires Started(start)
    ensures var t := TallyOf(Run(start, steps).log);
            t.opens <= 1 && t.errors <= 1 && t.closes <= 1
  {
    StartedHolds(start);
    RunKeepsInv(start, steps);
  }

  /** OnOpen and OnClose come after a valid first header marked the client connected, and
      OnError after OnOpen. */
  lemma CallbacksAreOrdered(start: State, steps: seq<Step>, i: nat)
    requires Started(start)
    requires i < |Run(start, steps).log|
    ensures var log := Run(start, steps).log;
            && (log[i].Opened? || log[i].Closed? ==> Marked in log[..i])
            && (log[i].Errored? ==> Opened in log[..i])
  {
    StartedHolds(start);
    RunKeepsInv(start, steps);
    var s := Run(start, steps);
    assert Allowed(TallyOf(s.log[..i]), s.log[i]);
    TallyCounts(s.log[..i]);
  }

  lemma {:induction false} TallyCounts(log: seq<Entry>)
    ensures (TallyOf(log).marked > 0 <==> Marked in log) && (TallyOf(log).opens > 0 <==> Opened in log)
    decreases |log|
  {
    if log != [] {
      TallyCounts(log[..|log| - 1]);
      assert log == log[..|log| - 1] + [log[|log| - 1]];
    }
  }

  /** Once both threads are done, OnClose has fired exactly when the thread that won
      closed_reported_ took is_connected_ after the mark, and OnOpen exactly when there
      was a mark. So an open stays without its close iff the winner came too early. */
  lemma CloseFiresIff(start: State, steps: seq<Step>)
    requires Started(start)
    requires var s := Run(start, steps); s.reader.ReaderDone? && s.writer.WriterDone?
    ensures var log := Run(start, steps).log;
            && (TallyOf(log).closes == 1 <==> MarkThenExchange(log))
            && (TallyOf(log).opens == 1 <==> Marked in log)
  {
    StartedHolds(start);
    RunKeepsInv(start, steps);
    var s := Run(start, steps);
    TallyCounts(s.log);
    MarkThenExchangeIs(s.log);
  }

  /** The step ends a loop loudly: a read that fails behind the first header, or a failed send. */
  predicate TakesLoudEnd(s: State, step: Step) {
    || (step.ReadLoudEnd? && s.reader == Reading(false))
    || (step.WriteFails? && s.writer.Taking? && Opened in s.log)
  }

  predicate EndsLoudly(s: State, steps: seq<Step>)
    decreases |steps|
  {
    steps != [] && (TakesLoudEnd(s, steps[0]) || EndsLoudly(Do(s, steps[0]), steps[1..]))
  }

  /** Someone has reported the failure or is about to try. */
  predicate FailureUnderWay(s: State) { s.failureReported || At(s, ErrorCas) > 0 }

  lemma StepLoud(s: State, step: Step)
    requires Inv(s) && Linked(s)
    ensures FailureUnderWay(Do(s, step)) <==> FailureUnderWay(s) || TakesLoudEnd(s, step)
  {
    TallyCounts(s.log);
    if step.ReaderMoves? {
      ReaderLoud(s);
    } else if step.WriterMoves? {
      WriterLoud(s);
    }
  }

  lemma ReaderLoud(s: State)
    ensures FailureUnderWay(DoReader(s)) <==> FailureUnderWay(s)
  {
  }

  lemma WriterLoud(s: State)
    ensures FailureUnderWay(DoWriter(s)) <==> FailureUnderWay(s)
  {
  }

  lemma {:induction false} LoudIsUnderWay(s: State, steps: seq<Step>)
    requires Inv(s) && Linked(s)
    ensures FailureUnderWay(Run(s, steps)) <==> FailureUnderWay(s) || EndsLoudly(s, steps)
    decreases |steps|
  {
    if steps != [] {
      StepLoud(s, steps[0]);
      RunKeepsInv(s, steps[..1]);
      RunFirst(s, steps);
      LoudIsUnderWay(Do(s, steps[0]), steps[1..]);
    }
  }

  /** Once both threads are done, OnError has fired iff a read failed behind the first header
      or a send failed. */
  lemma ErrorFiresIff(start: State, steps: seq<Step>)
    requires Started(start)
    requires var s := Run(start, steps); s.reader.ReaderDone? && s.writer.WriterDone?
    ensures TallyOf(Run(start, steps).log).errors == 1 <==> EndsLoudly(start, steps)
  {
    StartedHolds(start);
    RunKeepsInv(start, steps);
    LoudIsUnderWay(start, steps);
  }

  predicate MarkThenExchange(log: seq<Entry>) {
    exists i, j :: 0 <= i < j < |log| && log[i].Marked? && log[j].Exchanged?
  }

  lemma {:induction false} MarkThenExchangeIs(log: seq<Entry>)
    ensures TallyOf(log).markThenExchange <==> MarkThenExchange(log)
    decreases |log|
  {
    if log != [] {
      var front := log[..|log| - 1];
      MarkThenExchangeIs(front);
      TallyCounts(front);
      if MarkThenExchange(front) {
        var i, j :| 0 <= i < j < |front| && front[i].Marked? && front[j].Exchanged?;
        assert log[i].Marked? && log[j].Exchanged?;
      }
      if Marked in front && log[|log| - 1].Exchanged? {
        var i :| 0 <= i < |front| && front[i] == Marked;
        assert log[i].Marked? && log[|log| - 1].Exchanged?;
      }
      if MarkThenExchange(log) {
        var i, j :| 0 <= i < j < |log| && log[i].Marked? && log[j].Exchanged?;
        assert front[i].Marked?;
        if j < |front| { assert front[j].Exchanged?; }
      }
    }
  }

  /** is_connected_ was taken after the mark and before OnOpen was called. */
  predicate TakenEarly(log: seq<Entry>) {
    exists i, j :: 0 <= i < j < |log| && log[i].Marked? && log[j].Exchanged? && Opened !in log[..j]
  }

  /** OnOpen precedes OnClose in every run in which nobody takes is_connected_ between the
      mark and the call of OnOpen. */
  lemma CloseFollowsOpen(start: State, steps: seq<Step>, i: nat)
    requires Started(start)
    requires i < |Run(start, steps).log| && Run(start, steps).log[i].Closed?
    ensures var log := Run(start, steps).log;
            Opened in log[..i] || TakenEarly(log[..i])
  {
    StartedHolds(start);
    RunKeepsInv(start, steps);
    var log := Run(start, steps).log;
    var front := log[..i];
    assert Allowed(TallyOf(front), log[i]);
    MarkThenExchangeIs(front);
    if Opened !in front {
      var j, k :| 0 <= j < k < |front| && front[j].Marked? && front[k].Exchanged?;
      assert Opened !in front[..k];
    }
  }

  /** With the reader about to call OnOpen, OnClose can still come first iff is_connected_ was
      not taken before the mark. */
  lemma CloseCanOvertakeIff(start: State, before: seq<Step>)
    requires Started(start) && Run(start, before).reader.Opening?
    ensures var s := Run(start, before);
            (exists after :: ClosesFirst(s, after)) <==> (Exchanged !in s.log || MarkThenExchange(s.log))
  {
    StartedHolds(start);
    RunKeepsInv(start, before);
    OvertakeIff(Run(start, before));
  }

  lemma OvertakeIff(s: State)
    requires Inv(s) && Linked(s) && s.reader.Opening?
    ensures (exists after :: ClosesFirst(s, after)) <==> (Exchanged !in s.log || MarkThenExchange(s.log))
  {
    ExchangeCounts(s.log);
    MarkThenExchangeIs(s.log);
    if s.tally.exchanged == 0 || s.tally.markThenExchange {
      var after := FinishClose(s);
      assert ClosesFirst(s, after);
    } else {
      forall after ensures !ClosesFirst(s, after) {
        TooEarlyForEver(s, after);
      }
    }
  }

  predicate ClosedUnopened(log: seq<Entry>) { Closed in log && Opened !in log }

  predicate ClosesFirst(s: State, after: seq<Step>) { ClosedUnopened(Run(s, after).log) }

  lemma {:induction false} ExchangeCounts(log: seq<Entry>)
    ensures (TallyOf(log).exchanged > 0 <==> Exchanged in log) && (TallyOf(log).closes > 0 <==> Closed in log)
    decreases |log|
  {
    if log != [] {
      ExchangeCounts(log[..|log| - 1]);
      assert log == log[..|log| - 1] + [log[|log| - 1]];
    }
  }

  /** An exchange before the mark settles it: OnClose is never called. */
  lemma {:induction false} TooEarlyForEver(s: State, steps: seq<Step>)
    requires Inv(s) && Linked(s) && s.tally.exchanged > 0 && !s.tally.markThenExchange
    ensures Closed !in Run(s, steps).log
    decreases |steps|
  {
    ExchangeCounts(s.log);
    if steps != [] {
      RunKeepsInv(s, steps[..1]);
      RunFirst(s, steps);
      NoSecondExchange(s, steps[0]);
      TooEarlyForEver(Do(s, steps[0]), steps[1..]);
    }
  }

  lemma RunFirst(s: State, steps: seq<Step>)
    requires steps != []
    ensures Run(s, steps[..1]) == Do(s, steps[0])
  {
    assert steps[..1][1..] == [];
    assert Run(s, steps[..1]) == Run(Do(s, steps[0]), []);
  }

  lemma NoSecondExchange(s: State, step: Step)
    requires Inv(s) && s.tally.exchanged > 0 && !s.tally.markThenExchange
    ensures Do(s, step).tally.exchanged > 0 && !Do(s, step).tally.markThenExchange
  {
  }

  /** The writer's moves from its own position to the call of OnClose, the reader waiting. */
  lemma FinishClose(s: State) returns (steps: seq<Step>)
    requires Inv(s) && Linked(s) && s.reader.Opening? && (s.tally.exchanged == 0 || s.tally.markThenExchange)
    ensures ClosedUnopened(Run(s, steps).log)
    decreases if s.tally.closes > 0 then 0 else WriterLeft(s)
  {
    TallyCounts(s.log);
    ExchangeCounts(s.log);
    if s.tally.closes > 0 {
      steps := [];
    } else {
      var step := if s.writer.Taking? then WriteQuit else WriterMoves;
      WriterAdvances(s, step);
      RunKeepsInv(s, [step]);
      RunFirst(s, [step]);
      assert [step][..1] == [step];
      var rest := FinishClose(Do(s, step));
      steps := [step] + rest;
      assert steps[1..] == rest;
    }
  }

  function WriterLeft(s: State): (n: nat) {
    match s.writer
    case Taking => 4
    case WriterIn(CloseCas, _) => 3
    case WriterIn(CloseExchange, _) => 2
    case WriterIn(CloseCall, _) => 1
    case WriterIn(_, _) => 5
    case WriterDone => 0
  }

  lemma WriterAdvances(s: State, step: Step)
    requires Inv(s) && s.reader.Opening? && (s.tally.exchanged == 0 || s.tally.markThenExchange)
    requires s.tally.closes == 0 && step == if s.writer.Taking? then WriteQuit else WriterMoves
    ensures var r := Do(s, step);
            && r.reader.Opening? && (r.tally.exchanged == 0 || r.tally.markThenExchange)
            && 0 < WriterLeft(s) && (r.tally.closes == 0 ==> WriterLeft(r) < WriterLeft(s))
  {
  }

  /** OnClose may overtake OnOpen: the writer can quit between the mark and the call. */
  lemma CloseMayPrecedeOpen(start: State)
    requires Started(start)
    ensures exists steps: seq<Step> :: Run(start, steps).log == [Marked, Exchanged, Closed, Opened]
  {
    var s := Do(Do(Do(start, ReadFrame), ReaderMoves), WriteQuit);
    var r := Do(Do(Do(Do(s, WriterMoves), WriterMoves), WriterMoves), ReaderMoves);
    QuitBetween(s);
    assert s.log == [Marked];
    RunThree(start, ReadFrame, ReaderMoves, WriteQuit, [WriterMoves, WriterMoves, WriterMoves, ReaderMoves]);
    RunThree(s, WriterMoves, WriterMoves, WriterMoves, [ReaderMoves]);
    assert [ReaderMoves][1..] == [];
    assert r.log == [Marked, Exchanged, Closed, Opened];
  }

  /** An opened client may never be closed: the writer quits before the first header comes. */
  lemma OpenWithoutClose(start: State)
    requires Started(start)
    ensures exists steps: seq<Step> ::
              var s := Run(start, steps);
              s.log == [Exchanged, Marked, Opened] && s.reader.ReaderDone? && s.writer.WriterDone?
  {
    var s := Do(Do(Do(start, WriteQuit), WriterMoves), WriterMoves);
    assert s.log == [Exchanged] && s.writer.WriterDone? && s.closedReported && s.reader == Reading(true);
    var t := Do(Do(Do(s, ReadFrame), ReaderMoves), ReaderMoves);
    assert t.log == [Exchanged, Marked, Opened] && t.reader == Reading(false) && t.closedReported && t.writer.WriterDone?;
    var rest := [ReadQuietEnd, ReaderMoves];
    assert rest[1..] == [ReaderMoves] && [ReaderMoves][1..] == [];
    assert Run(Do(t, ReadQuietEnd), [ReaderMoves]) == Do(Do(t, ReadQuietEnd), ReaderMoves);
    RunThree(s, ReadFrame, ReaderMoves, ReaderMoves, rest);
    RunThree(start, WriteQuit, WriterMoves, WriterMoves, [ReadFrame, ReaderMoves, ReaderMoves] + rest);
    assert Run(t, rest).log == [Exchanged, Marked, Opened];
  }

  lemma QuitBetween(s: State)
    requires s.writer == WriterIn(CloseCas, false) && s.reader.Opening? && s.isConnected && !s.closedReported
    ensures Do(Do(Do(Do(s, WriterMoves), WriterMoves), WriterMoves), ReaderMoves).log
            == s.log + [Exchanged] + [Closed] + [Opened]
  {
    var s2 := Do(Do(s, WriterMoves), WriterMoves);
    assert s2.log == s.log + [Exchanged] && s2.writer == WriterIn(CloseCall, false) && s2.reader.Opening?;
  }

  lemma RunThree(s: State, a: Step, b: Step, c: Step, rest: seq<Step>)
    ensures Run(s, [a, b, c] + rest) == Run(Do(Do(Do(s, a), b), c), rest)
  {
    var t := [a, b, c] + rest;
    assert t[1..] == [b, c] + rest && t[1..][1..] == [c] + rest && t[1..][1..][1..] == rest;
    assert Run(Do(s, a), [b, c] + rest) == Run(Do(Do(s, a), b), [c] + rest);
  }
}
