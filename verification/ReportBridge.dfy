/** The daemon's report bridge: reports are forwarded to a connector, or queued while
    none is available. The send callback may call back into the bridge. */
module ReportBridge {

  const MAX_REPORT_QUEUE_LENGTH := 100

  datatype Status = Disconnected | Closed | Forward(controlId: int)

  /** The record that one report() call creates; `serial` is its identity. */
  datatype ReportData = ReportData(serial: nat, eventName: string)

  datatype Delivery = Delivery(to: int, report: ReportData)

  /** What became of a report: still queued, handed to send, pushed out by a newer one,
      or discarded by close(). */
  datatype Fate = Queued | Sent(to: int) | Dropped | Discarded

  /** Calls in progress, innermost last. Both a report that is being sent and a drain that
      is sending have handed control to the callback. */
  datatype Frame = InReport | InDrain(sending: bool)

  datatype State = State(status: Status, queue: seq<ReportData>, draining: bool,
                         frames: seq<Frame>, delivered: seq<Delivery>, fate: seq<Fate>)

  /** Loop is one test of the drain loop's condition and what follows it; Return is the
      end of a callback, by return or by a caught exception. */
  datatype Step = Report(eventName: string) | Update(status: Status) | Close | Loop | Return

  /** Control is with the bridge's callers: outside, or inside a send callback. */
  predicate Outside(s: State) { |s.frames| == 0 || Top(s) != InDrain(false) }

  function Top(s: State): (f: Frame)
    requires |s.frames| > 0
  {
    s.frames[|s.frames| - 1]
  }

  function Pop(s: State): (r: State)
    requires |s.frames| > 0
  {
    s.(frames := s.frames[..|s.frames| - 1])
  }

  function Push(s: State, f: Frame): (r: State) { s.(frames := s.frames + [f]) }

  function Mark(s: State, r: ReportData, f: Fate): (t: State) {
    if r.serial < |s.fate| then s.(fate := s.fate[r.serial := f]) else s
  }

  function Send(s: State, r: ReportData): (t: State)
    requires s.status.Forward?
  {
    Mark(s, r, Sent(s.status.controlId)).(delivered := s.delivered + [Delivery(s.status.controlId, r)])
  }

  function DoReport(s: State, eventName: string): (t: State) {
    var r := ReportData(|s.fate|, eventName);
    var s1 := s.(fate := s.fate + [Queued]);
    if s.status.Closed? then s
    else if s.status.Forward? then Push(Send(s1, r), InReport)
    else if |s.queue| >= MAX_REPORT_QUEUE_LENGTH then
      Mark(s1, s.queue[0], Dropped).(queue := s.queue[1..] + [r])
    else s1.(queue := s.queue + [r])
  }

  function DoUpdate(s: State, status: Status): (t: State) {
    if s.status.Closed? then s
    else if s.draining then s.(status := status)
    else Push(s.(status := status, draining := true), InDrain(false))
  }

  function DoClose(s: State): (t: State) {
    s.(status := Closed, queue := [],
       fate := seq(|s.fate|, i requires 0 <= i < |s.fate| => if s.fate[i] == Queued then Discarded else s.fate[i]))
  }

  function DoLoop(s: State): (t: State)
    requires |s.frames| > 0
  {
    if |s.queue| > 0 && s.status.Forward? then
      Push(Pop(Send(s.(queue := s.queue[1..]), s.queue[0])), InDrain(true))
    else Pop(s.(draining := false))
  }

  function DoReturn(s: State): (t: State)
    requires |s.frames| > 0
  {
    if Top(s).InReport? then Pop(s) else Push(Pop(s), InDrain(false))
  }

  /** A step that is not possible changes nothing. */
  function Do(s: State, step: Step): (t: State) {
    match step
    case Report(eventName) => if Outside(s) then DoReport(s, eventName) else s
    case Update(status) => if Outside(s) then DoUpdate(s, status) else s
    case Close => if Outside(s) then DoClose(s) else s
    case Loop => if Outside(s) then s else DoLoop(s)
    case Return => if |s.frames| > 0 && Outside(s) then DoReturn(s) else s
  }

  function Run(s: State, steps: seq<Step>): (t: State)
    decreases |steps|
  {
    if steps == [] then s else Run(Do(s, steps[0]), steps[1..])
  }

  predicate Started(s: State) {
    s.status.Disconnected? && |s.queue| == 0 && !s.draining && |s.frames| == 0 && |s.delivered| == 0 && |s.fate| == 0
  }

  // ---------------------------------------------------------------- invariants

  /** The queue holds the newest reports, in order, and nothing else. */
  predicate QueueIsNewest(s: State) {
    && |s.queue| <= |s.fate| && |s.queue| <= MAX_REPORT_QUEUE_LENGTH
    && (forall i :: 0 <= i < |s.queue| ==> s.queue[i].serial == |s.fate| - |s.queue| + i)
    && (s.status.Forward? && !s.draining ==> |s.queue| == 0)
  }

  predicate Increasing(d: seq<Delivery>) {
    forall i, j :: 0 <= i < j < |d| ==> d[i].report.serial < d[j].report.serial
  }

  predicate DeliveredFirst(s: State) {
    && Increasing(s.delivered)
    && forall i :: 0 <= i < |s.delivered| ==>
         var d := s.delivered[i];
         d.report.serial + |s.queue| < |s.fate| && s.fate[d.report.serial] == Sent(d.to)
  }

  predicate WasDelivered(s: State, n: nat) {
    exists i :: 0 <= i < |s.delivered| && s.delivered[i].report.serial == n
  }

  predicate FatesAreTrue(s: State) {
    forall n :: 0 <= n < |s.fate| ==>
      && (s.fate[n] == Queued <==> n + |s.queue| >= |s.fate|)
      && (s.fate[n].Sent? <==> WasDelivered(s, n))
      && (s.fate[n] == Dropped ==> n + MAX_REPORT_QUEUE_LENGTH < |s.fate|)
      && (s.fate[n] == Discarded ==> s.status.Closed?)
  }

  /** The draining flag says whether a drain is in progress, and there is at most one. */
  predicate FlagIsTrue(s: State) {
    if s.draining then exists k :: 0 <= k < |s.frames| && OnlyDrain(s.frames, k)
    else forall j :: 0 <= j < |s.frames| ==> s.frames[j].InReport?
  }

  predicate OnlyDrain(frames: seq<Frame>, k: nat) {
    && k < |frames| && frames[k].InDrain?
    && forall j :: 0 <= j < |frames| && j != k ==> frames[j].InReport?
  }

  predicate Inv(s: State) {
    QueueIsNewest(s) && DeliveredFirst(s) && FatesAreTrue(s) && FlagIsTrue(s)
  }

  /** The report would overtake a queued one: it is sent at once while older ones wait. */
  predicate Overtakes(s: State, step: Step) {
    step.Report? && Outside(s) && s.status.Forward? && |s.queue| > 0
  }

  predicate CalmRun(s: State, steps: seq<Step>)
    decreases |steps|
  {
    steps == [] || (!Overtakes(s, steps[0]) && CalmRun(Do(s, steps[0]), steps[1..]))
  }

  // ---------------------------------------------------------------- preservation

  lemma SendKeeps(s: State, r: ReportData)
    requires DeliveredFirst(s) && s.status.Forward? && r.serial + |s.queue| < |s.fate|
    requires forall i :: 0 <= i < |s.delivered| ==> s.delivered[i].report.serial < r.serial
    ensures DeliveredFirst(Send(s, r))
  {
  }

  /** After a send exactly the sent report has changed its fate. */
  lemma SendMarks(s: State, r: ReportData, n: nat)
    requires s.status.Forward? && r.serial < |s.fate| && n < |s.fate|
    ensures WasDelivered(Send(s, r), n) <==> WasDelivered(s, n) || n == r.serial
  {
    var t := Send(s, r);
    assert t.delivered[|s.delivered|].report == r;
    if i :| 0 <= i < |s.delivered| && s.delivered[i].report.serial == n {
      assert t.delivered[i].report.serial == n;
    }
  }

  lemma ForwardedKeepsInv(s: State, eventName: string)
    requires Inv(s) && s.status.Forward? && |s.queue| == 0
    ensures Inv(DoReport(s, eventName))
  {
    var r := ReportData(|s.fate|, eventName);
    var s1, t := s.(fate := s.fate + [Queued]), DoReport(s, eventName);
    SendKeeps(s1, r);
    forall n: nat | n < |t.fate| ensures WasDelivered(t, n) <==> WasDelivered(s, n) || n == r.serial {
      SendMarks(s1, r, n);
    }
    assert forall n: nat :: WasDelivered(s, n) ==> n < |s.fate|;
    if s.draining {
      var k :| 0 <= k < |s.frames| && OnlyDrain(s.frames, k);
      assert OnlyDrain(t.frames, k);
    }
  }

  lemma AppendKeepsInv(s: State, eventName: string)
    requires Inv(s) && s.status.Disconnected? && |s.queue| < MAX_REPORT_QUEUE_LENGTH
    ensures Inv(DoReport(s, eventName))
  {
    var t := DoReport(s, eventName);
    assert forall n: nat :: WasDelivered(t, n) <==> WasDelivered(s, n);
  }

  lemma ReplaceKeepsInv(s: State, eventName: string)
    requires Inv(s) && s.status.Disconnected? && |s.queue| == MAX_REPORT_QUEUE_LENGTH
    ensures Inv(DoReport(s, eventName))
  {
    var t := DoReport(s, eventName);
    assert forall n: nat :: WasDelivered(t, n) <==> WasDelivered(s, n);
  }

  lemma ReportKeepsInv(s: State, eventName: string)
    requires Inv(s) && !(s.status.Forward? && |s.queue| > 0)
    ensures Inv(DoReport(s, eventName))
  {
    if s.status.Forward? {
      ForwardedKeepsInv(s, eventName);
    } else if s.status.Disconnected? {
      if |s.queue| < MAX_REPORT_QUEUE_LENGTH { AppendKeepsInv(s, eventName); } else { ReplaceKeepsInv(s, eventName); }
    }
  }

  lemma UpdateKeepsInv(s: State, status: Status)
    requires Inv(s) && Outside(s)
    ensures Inv(DoUpdate(s, status))
  {
    var t := DoUpdate(s, status);
    assert forall n: nat :: WasDelivered(t, n) <==> WasDelivered(s, n);
    if !s.status.Closed? && !s.draining {
      assert OnlyDrain(t.frames, |s.frames|);
    }
  }

  lemma CloseKeepsInv(s: State)
    requires Inv(s)
    ensures Inv(DoClose(s))
  {
    var t := DoClose(s);
    assert forall n: nat :: WasDelivered(t, n) <==> WasDelivered(s, n);
  }

  /** The drain that has control is the innermost call. */
  lemma DrainOnTop(s: State)
    requires FlagIsTrue(s) && |s.frames| > 0 && Top(s).InDrain?
    ensures s.draining && OnlyDrain(s.frames, |s.frames| - 1)
  {
  }

  lemma LoopKeepsInv(s: State)
    requires Inv(s) && !Outside(s)
    ensures Inv(DoLoop(s))
  {
    var t := DoLoop(s);
    DrainOnTop(s);
    if |s.queue| > 0 && s.status.Forward? {
      var s1, r := s.(queue := s.queue[1..]), s.queue[0];
      SendKeeps(s1, r);
      forall n: nat | n < |t.fate| ensures WasDelivered(t, n) <==> WasDelivered(s, n) || n == r.serial {
        SendMarks(s1, r, n);
      }
      assert OnlyDrain(t.frames, |s.frames| - 1);
    } else {
      assert forall n: nat :: WasDelivered(t, n) <==> WasDelivered(s, n);
    }
  }

  lemma ReturnKeepsInv(s: State)
    requires Inv(s) && |s.frames| > 0 && Outside(s)
    ensures Inv(DoReturn(s))
  {
    var t := DoReturn(s);
    assert forall n: nat :: WasDelivered(t, n) <==> WasDelivered(s, n);
    if Top(s).InDrain? {
      DrainOnTop(s);
      assert OnlyDrain(t.frames, |s.frames| - 1);
    } else if s.draining {
      var k :| 0 <= k < |s.frames| && OnlyDrain(s.frames, k);
      assert OnlyDrain(t.frames, k);
    }
  }

  lemma DoKeepsInv(s: State, step: Step)
    requires Inv(s) && !Overtakes(s, step)
    ensures Inv(Do(s, step))
  {
    match step
    case Report(eventName) => if Outside(s) { ReportKeepsInv(s, eventName); }
    case Update(status) => if Outside(s) { UpdateKeepsInv(s, status); }
    case Close => CloseKeepsInv(s);
    case Loop => if !Outside(s) { LoopKeepsInv(s); }
    case Return => if |s.frames| > 0 && Outside(s) { ReturnKeepsInv(s); }
  }

  lemma {:induction false} RunKeepsInv(s: State, steps: seq<Step>)
    requires Inv(s) && CalmRun(s, steps)
    ensures Inv(Run(s, steps))
    decreases |steps|
  {
    if steps != [] {
      DoKeepsInv(s, steps[0]);
      RunKeepsInv(Do(s, steps[0]), steps[1..]);
    }
  }

  // ---------------------------------------------------------------- what every run keeps

  /** Delivered reports, then queued ones. */
  function Line(s: State): (r: seq<ReportData>) {
    seq(|s.delivered|, i requires 0 <= i < |s.delivered| => s.delivered[i].report) + s.queue
  }

  /** Report order without duplicates. */
  predicate InOrder(s: State) {
    forall i, j :: 0 <= i < j < |Line(s)| ==> Line(s)[i].serial < Line(s)[j].serial
  }

  lemma InvGivesOrder(s: State)
    requires QueueIsNewest(s) && DeliveredFirst(s)
    ensures InOrder(s)
  {
  }

  /** The bridge's promises on every run in which no report overtakes a queued one. */
  lemma ReportsStayInOrder(start: State, steps: seq<Step>)
    requires Started(start) && CalmRun(start, steps)
    ensures var s := Run(start, steps);
            && InOrder(s)
            && |s.queue| <= 100
            && (s.status.Forward? && !s.draining ==> s.queue == [])
  {
    RunKeepsInv(start, steps);
    InvGivesOrder(Run(start, steps));
  }

  /** Reports made outside the callbacks only: then none overtakes. */
  predicate NoReentrantReport(s: State, steps: seq<Step>)
    decreases |steps|
  {
    steps == [] || ((steps[0].Report? ==> |s.frames| == 0) && NoReentrantReport(Do(s, steps[0]), steps[1..]))
  }

  lemma {:induction false} NoReentrantReportIsCalm(s: State, steps: seq<Step>)
    requires Inv(s) && NoReentrantReport(s, steps)
    ensures CalmRun(s, steps)
    decreases |steps|
  {
    if steps != [] {
      DoKeepsInv(s, steps[0]);
      NoReentrantReportIsCalm(Do(s, steps[0]), steps[1..]);
    }
  }

  /** Over whole runs, callbacks that report included: the reports are in order after every
      prefix of the run iff no report comes while the status is forward and the queue is not
      empty. */
  lemma OrderedIffCalm(start: State, steps: seq<Step>)
    requires Started(start)
    ensures (forall k :: 0 <= k <= |steps| ==> InOrderAfter(start, steps, k)) <==> CalmRun(start, steps)
  {
    OrderedIffCalmFrom(start, steps);
  }

  predicate InOrderAfter(s: State, steps: seq<Step>, k: nat)
    requires k <= |steps|
  {
    InOrder(Run(s, steps[..k]))
  }

  lemma {:induction false} OrderedIffCalmFrom(s: State, steps: seq<Step>)
    requires Inv(s)
    ensures (forall k :: 0 <= k <= |steps| ==> InOrderAfter(s, steps, k)) <==> CalmRun(s, steps)
    decreases |steps|
  {
    InvGivesOrder(s);
    if steps == [] {
      assert steps[..0] == [];
    } else {
      PrefixesOf(s, steps);
      var t := Do(s, steps[0]);
      if Overtakes(s, steps[0]) {
        ReportKeepsOrderIff(s, steps[0].eventName);
        assert steps[1..][..0] == [];
        assert !InOrderAfter(t, steps[1..], 0);
      } else {
        DoKeepsInv(s, steps[0]);
        OrderedIffCalmFrom(t, steps[1..]);
      }
    }
  }

  /** Being in order throughout, one step at a time. */
  lemma PrefixesOf(s: State, steps: seq<Step>)
    requires steps != [] && InOrder(s)
    ensures (forall k :: 0 <= k <= |steps| ==> InOrderAfter(s, steps, k)) <==>
            (forall k :: 0 <= k <= |steps| - 1 ==> InOrderAfter(Do(s, steps[0]), steps[1..], k))
  {
    var rest := steps[1..];
    forall k | 0 <= k < |steps| ensures InOrderAfter(s, steps, k + 1) <==> InOrderAfter(Do(s, steps[0]), rest, k) {
      assert steps[..k + 1][1..] == rest[..k];
    }
    assert steps[..0] == [];
    forall k | 0 <= k <= |steps| && (forall j :: 0 <= j <= |rest| ==> InOrderAfter(Do(s, steps[0]), rest, j))
      ensures InOrderAfter(s, steps, k)
    {
      if k > 0 {
        assert InOrderAfter(Do(s, steps[0]), rest, k - 1);
      }
    }
    forall k | 0 <= k <= |rest| && (forall j :: 0 <= j <= |steps| ==> InOrderAfter(s, steps, j))
      ensures InOrderAfter(Do(s, steps[0]), rest, k)
    {
      assert InOrderAfter(s, steps, k + 1);
    }
  }

  /** The report was handed to send, and only once. */
  predicate DeliveredOnceTo(s: State, n: nat, to: int) {
    exists i :: 0 <= i < |s.delivered| && DeliveredAt(s, n, to, i)
  }

  predicate DeliveredAt(s: State, n: nat, to: int, i: nat)
    requires i < |s.delivered|
  {
    && s.delivered[i].report.serial == n && s.delivered[i].to == to
    && forall j :: 0 <= j < |s.delivered| && s.delivered[j].report.serial == n ==> j == i
  }

  /** Where each report is: exactly the newest are queued, exactly those marked Sent were
      handed over, once each, overflow never takes one of the hundred newest, and only
      close() discards. */
  lemma NoReportIsLost(start: State, steps: seq<Step>, n: nat)
    requires Started(start) && CalmRun(start, steps) && n < |Run(start, steps).fate|
    ensures var s := Run(start, steps);
            && (s.fate[n].Sent? <==> WasDelivered(s, n))
            && match s.fate[n]
               case Queued => exists i :: 0 <= i < |s.queue| && s.queue[i].serial == n
               case Sent(to) => DeliveredOnceTo(s, n, to)
               case Dropped => n + 100 < |s.fate|
               case Discarded => s.status.Closed?
  {
    RunKeepsInv(start, steps);
    var s := Run(start, steps);
    if s.fate[n] == Queued {
      assert s.queue[n - (|s.fate| - |s.queue|)].serial == n;
    } else if s.fate[n].Sent? {
      assert WasDelivered(s, n);
      var i :| 0 <= i < |s.delivered| && s.delivered[i].report.serial == n;
      assert DeliveredAt(s, n, s.fate[n].to, i);
    }
  }

  /** Once closed, for good: nothing is sent, accepted or queued, whatever is called. */
  lemma {:induction false} ClosedIsFinal(s: State, steps: seq<Step>)
    requires s.status.Closed?
    ensures var t := Run(s, steps);
            t.status.Closed? && t.delivered == s.delivered && |t.fate| == |s.fate| && |t.queue| <= |s.queue|
    decreases |steps|
  {
    if steps != [] {
      ClosedIsFinal(Do(s, steps[0]), steps[1..]);
    }
  }

  /** One report keeps the order iff it does not overtake. */
  lemma ReportKeepsOrderIff(s: State, eventName: string)
    requires Inv(s) && Outside(s)
    ensures InOrder(Do(s, Report(eventName))) <==> !(s.status.Forward? && |s.queue| > 0)
  {
    var t := DoReport(s, eventName);
    if s.status.Forward? && |s.queue| > 0 {
      var k := |s.delivered|;
      assert Line(t)[k].serial == |s.fate| && Line(t)[k + 1] == s.queue[0];
    } else {
      ReportKeepsInv(s, eventName);
      InvGivesOrder(t);
    }
  }

  lemma QueueOne(s: State, eventName: string)
    requires s.status.Disconnected? && |s.frames| == 0 && |s.queue| < 100
    ensures var t := Do(s, Report(eventName));
            && t.queue == s.queue + [ReportData(|s.fate|, eventName)] && |t.fate| == |s.fate| + 1
            && t.status == s.status && t.frames == s.frames && t.draining == s.draining && t.delivered == s.delivered
  {
  }

  lemma TwoQueuedOneSent(s: State, controlId: int)
    requires Started(s)
    ensures var t := Do(Do(Do(Do(s, Report("a")), Report("b")), Update(Forward(controlId))), Loop);
            && t.frames == [InDrain(true)] && t.status == Forward(controlId) && |t.fate| == 2
            && t.delivered == [Delivery(controlId, ReportData(0, "a"))] && t.queue == [ReportData(1, "b")]
  {
    var s1 := Do(s, Report("a"));
    QueueOne(s, "a");
    assert s1.queue == [ReportData(0, "a")];
    QueueOne(s1, "b");
    var s2 := Do(s1, Report("b"));
    assert s2.queue == [ReportData(0, "a"), ReportData(1, "b")];
    var s3 := Do(s2, Update(Forward(controlId)));
    assert s3.frames == [InDrain(false)] && s3.queue == s2.queue;
  }

  /** Such a report does overtake: the first of two queued reports is being sent when the
      callback reports a third, which arrives before the second. */
  lemma ReentrantReportOvertakes(s: State, controlId: int)
    requires Started(s)
    ensures var sending := Do(Do(Do(Do(s, Report("a")), Report("b")), Update(Forward(controlId))), Loop);
            var t := Do(sending, Report("c"));
            Line(t) == [ReportData(0, "a"), ReportData(2, "c"), ReportData(1, "b")] && !InOrder(t)
  {
    TwoQueuedOneSent(s, controlId);
    Overtake(Do(Do(Do(Do(s, Report("a")), Report("b")), Update(Forward(controlId))), Loop), controlId);
  }

  lemma Overtake(s: State, controlId: int)
    requires s.frames == [InDrain(true)] && s.status == Forward(controlId) && |s.fate| == 2
    requires s.delivered == [Delivery(controlId, ReportData(0, "a"))] && s.queue == [ReportData(1, "b")]
    ensures var t := Do(s, Report("c"));
            Line(t) == [ReportData(0, "a"), ReportData(2, "c"), ReportData(1, "b")] && !InOrder(t)
  {
    var t := Do(s, Report("c"));
    assert t.delivered == s.delivered + [Delivery(controlId, ReportData(2, "c"))] && t.queue == s.queue;
    assert Line(t)[1].serial > Line(t)[2].serial;
  }

  // ---------------------------------------------------------------- draining

  function Quiet(n: nat): (r: seq<Step>) {
    if n == 0 then [Loop] else [Loop, Return] + Quiet(n - 1)
  }

  function To(controlId: int, q: seq<ReportData>): (r: seq<Delivery>) {
    seq(|q|, i requires 0 <= i < |q| => Delivery(controlId, q[i]))
  }

  lemma RunTwo(s: State, a: Step, b: Step, rest: seq<Step>)
    ensures Run(s, [a, b] + rest) == Run(Do(Do(s, a), b), rest)
  {
    assert ([a, b] + rest)[1..] == [b] + rest && ([b] + rest)[1..] == rest;
    assert Run(s, [a, b] + rest) == Run(Do(s, a), [b] + rest);
  }

  lemma RunOne(s: State, a: Step)
    ensures Run(s, [a]) == Do(s, a)
  {
    assert [a][1..] == [];
    assert Run(s, [a]) == Run(Do(s, a), []);
  }

  /** If the callbacks stay quiet, one drain delivers the whole queue in order and ends. */
  lemma {:induction false} QuietDrain(s: State)
    requires Inv(s) && !Outside(s) && s.status.Forward?
    ensures var t := Run(s, Quiet(|s.queue|));
            && t.delivered == s.delivered + To(s.status.controlId, s.queue)
            && t.queue == [] && !t.draining && t.frames == s.frames[..|s.frames| - 1]
    decreases |s.queue|
  {
    if |s.queue| == 0 {
      QuietEnd(s);
      assert s.delivered + To(s.status.controlId, s.queue) == s.delivered;
    } else {
      var t := Do(Do(s, Loop), Return);
      QuietTurn(s);
      RunTwo(s, Loop, Return, Quiet(|t.queue|));
      QuietDrain(t);
      AppendAll(s.delivered, s.status.controlId, s.queue);
    }
  }

  lemma QuietEnd(s: State)
    requires !Outside(s) && s.queue == []
    ensures var t := Run(s, Quiet(0));
            && t.delivered == s.delivered && t.queue == [] && !t.draining
            && t.frames == s.frames[..|s.frames| - 1]
  {
    RunOne(s, Loop);
  }

  lemma AppendAll(d: seq<Delivery>, to: int, q: seq<ReportData>)
    requires |q| > 0
    ensures d + To(to, q) == d + [Delivery(to, q[0])] + To(to, q[1..])
  {
  }

  lemma QuietTurn(s: State)
    requires Inv(s) && !Outside(s) && s.status.Forward? && |s.queue| > 0
    ensures var t := Do(Do(s, Loop), Return);
            && Inv(t) && t.status == s.status && t.queue == s.queue[1..] && t.frames == s.frames
            && t.delivered == s.delivered + [Delivery(s.status.controlId, s.queue[0])]
  {
    LoopKeepsInv(s);
    ReturnKeepsInv(DoLoop(s));
  }

  // ---------------------------------------------------------------- what is reported

  /** The report is accepted: made by a caller or a callback while the bridge is not closed. */
  predicate Accepts(s: State, step: Step) { step.Report? && Outside(s) && !s.status.Closed? }

  /** The event names of the reports accepted in a run. */
  function Names(s: State, steps: seq<Step>): (r: seq<string>)
    decreases |steps|
  {
    if steps == [] then []
    else (if Accepts(s, steps[0]) then [steps[0].eventName] else []) + Names(Do(s, steps[0]), steps[1..])
  }

  predicate Carries(r: ReportData, names: seq<string>) { r.serial < |names| && r.eventName == names[r.serial] }

  /** There is one fate per name, and every report queued or handed over carries its own. */
  predicate Named(s: State, names: seq<string>) {
    && |s.fate| == |names|
    && (forall i :: 0 <= i < |s.queue| ==> Carries(s.queue[i], names))
    && (forall i :: 0 <= i < |s.delivered| ==> Carries(s.delivered[i].report, names))
  }

  lemma DoNames(s: State, step: Step, names: seq<string>)
    requires Named(s, names)
    ensures Named(Do(s, step), names + if Accepts(s, step) then [step.eventName] else [])
  {
    assert names + [] == names;
  }

  lemma {:induction false} RunNames(s: State, steps: seq<Step>, names: seq<string>)
    requires Named(s, names)
    ensures Named(Run(s, steps), names + Names(s, steps))
    decreases |steps|
  {
    if steps == [] {
      assert names + [] == names;
    } else {
      var first := if Accepts(s, steps[0]) then [steps[0].eventName] else [];
      DoNames(s, steps[0], names);
      RunNames(Do(s, steps[0]), steps[1..], names + first);
      assert names + first + Names(Do(s, steps[0]), steps[1..]) == names + Names(s, steps);
    }
  }

  /** Over every run: the bridge accounts for exactly the reports made while it was not closed,
      in the order they were made, and each carries the event name it was made with. */
  lemma ReportsAreRecorded(start: State, steps: seq<Step>)
    requires Started(start)
    ensures Named(Run(start, steps), Names(start, steps))
  {
    RunNames(start, steps, []);
    assert [] + Names(start, steps) == Names(start, steps);
  }

  /** A report made while a connector is attached is handed to it in that very step. */
  lemma ForwardedAtOnce(s: State, eventName: string)
    requires Outside(s) && s.status.Forward?
    ensures Do(s, Report(eventName)).delivered == s.delivered + [Delivery(s.status.controlId, ReportData(|s.fate|, eventName))]
  {
  }

  /** Every step hands over at most one report, and to the connector attached at that moment. */
  lemma SentToCurrent(s: State, step: Step)
    ensures var t := Do(s, step);
            t.delivered == s.delivered ||
            (s.status.Forward? && |t.delivered| == |s.delivered| + 1 && t.delivered[..|s.delivered|] == s.delivered
             && t.delivered[|s.delivered|].to == s.status.controlId)
  {
  }

  /** The last status set before the bridge was closed; Closed from then on. */
  function LastStatus(s: State, steps: seq<Step>, status: Status): (r: Status)
    decreases |steps|
  {
    if steps == [] then status
    else LastStatus(Do(s, steps[0]), steps[1..],
                    if !Outside(s) || status.Closed? then status
                    else if steps[0].Update? then steps[0].status else if steps[0].Close? then Closed else status)
  }

  lemma StepStatus(s: State, step: Step)
    ensures Do(s, step).status ==
            if !Outside(s) || s.status.Closed? then s.status
            else if step.Update? then step.status else if step.Close? then Closed else s.status
  {
  }

  lemma {:induction false} StatusIsLast(s: State, steps: seq<Step>)
    ensures Run(s, steps).status == LastStatus(s, steps, s.status)
    decreases |steps|
  {
    if steps != [] {
      StepStatus(s, steps[0]);
      StatusIsLast(Do(s, steps[0]), steps[1..]);
    }
  }

  /** Close empties the queue for good. */
  lemma CloseEmpties(s: State, steps: seq<Step>)
    requires Outside(s)
    ensures var t := Run(Do(s, Close), steps);
            t.queue == [] && t.delivered == s.delivered && t.status.Closed?
  {
    ClosedIsFinal(Do(s, Close), steps);
  }

  function ReportAll(names: seq<string>): (steps: seq<Step>) {
    if names == [] then [] else [Report(names[0])] + ReportAll(names[1..])
  }

  function Newest(n: nat): (m: nat) { if n < 100 then n else 100 }

  lemma {:induction false} ReportAllQueues(s: State, names: seq<string>)
    requires Inv(s) && s.status.Disconnected? && |s.frames| == 0
    ensures var t := Run(s, ReportAll(names));
            && Inv(t) && t.status.Disconnected? && t.frames == s.frames && t.draining == s.draining
            && t.delivered == s.delivered && |t.queue| == Newest(|s.queue| + |names|)
    ensures Names(s, ReportAll(names)) == names
    decreases |names|
  {
    if names != [] {
      var t := Do(s, Report(names[0]));
      ReportKeepsInv(s, names[0]);
      ReportAllQueues(t, names[1..]);
      assert ReportAll(names)[1..] == ReportAll(names[1..]);
      assert names == [names[0]] + names[1..];
    }
  }

  /** The newest hundred reports, or all if there are fewer. */
  function NewestOf(names: seq<string>): (r: seq<ReportData>) {
    var skip := |names| - Newest(|names|);
    seq(Newest(|names|), i requires 0 <= i < Newest(|names|) => ReportData(skip + i, names[skip + i]))
  }

  /** End to end: reports made with nobody attached are delivered, in order, to the connector
      that attaches next, the newest hundred of them. */
  lemma QueuedThenForwarded(start: State, names: seq<string>, controlId: int)
    requires Started(start)
    ensures var s := Run(start, ReportAll(names));
            var t := Run(Do(s, Update(Forward(controlId))), Quiet(|s.queue|));
            t.queue == [] && !t.draining && t.delivered == To(controlId, NewestOf(names))
  {
    var s := Run(start, ReportAll(names));
    QueueIsNewestOf(start, names);
    AttachDelivers(s, controlId);
    assert s.delivered + To(controlId, s.queue) == To(controlId, s.queue);
  }

  lemma QueueIsNewestOf(start: State, names: seq<string>)
    requires Started(start)
    ensures var s := Run(start, ReportAll(names));
            s.queue == NewestOf(names) && Inv(s) && s.status.Disconnected? && |s.frames| == 0 && s.delivered == []
  {
    var s := Run(start, ReportAll(names));
    ReportAllQueues(start, names);
    ReportsAreRecorded(start, ReportAll(names));
    forall i | 0 <= i < |s.queue| ensures s.queue[i] == NewestOf(names)[i] {
      assert Carries(s.queue[i], names);
    }
  }

  lemma AttachDelivers(s: State, controlId: int)
    requires Inv(s) && s.status.Disconnected? && |s.frames| == 0
    ensures var t := Run(Do(s, Update(Forward(controlId))), Quiet(|s.queue|));
            t.queue == [] && !t.draining && t.delivered == s.delivered + To(controlId, s.queue)
  {
    UpdateKeepsInv(s, Forward(controlId));
    QuietDrain(Do(s, Update(Forward(controlId))));
  }

  // ---------------------------------------------------------------- the object

  /** What a send callback does before it returns: it calls back into the bridge. Each
      send that such a call makes runs a callback of its own, in turn; past the end of the
      list the callbacks do nothing. */
  datatype Callback = Callback(calls: seq<Call>)
  datatype Call = ReportCall(eventName: string, send: Callback) | UpdateCall(status: Status, sends: Script) | CloseCall
  datatype Script = Script(sends: seq<Callback>)

  lemma {:induction false} RunSnoc(s: State, a: seq<Step>, step: Step)
    ensures Run(s, a + [step]) == Do(Run(s, a), step)
    decreases |a|
  {
    if a == [] {
      assert a + [step] == [step] && [step][1..] == [];
    } else {
      assert (a + [step])[1..] == a[1..] + [step];
      RunSnoc(Do(s, a[0]), a[1..], step);
    }
  }

  class DaemonReportServiceBridge {
    var status: Status
    var queue: seq<ReportData>
    var draining: bool
    // every call of send, and the number of reports accepted
    var delivered: seq<Delivery>
    var reports: nat
    // the step machine's run so far, and where it has got to
    ghost const start: State
    ghost var steps: seq<Step>
    ghost var machine: State

    /** The fields are those of a machine state. */
    ghost predicate Shows(s: State)
      reads this
    {
      s.status == status && s.queue == queue && s.draining == draining && s.delivered == delivered && |s.fate| == reports
    }

    ghost predicate Logged()
      reads this
    {
      Started(start) && machine == Run(start, steps)
    }

    ghost predicate Valid()
      reads this
    {
      Shows(machine) && Logged()
    }

    /** What every call leaves alone: the calls in progress, the drain flag, the past. */
    twostate predicate Balanced()
      reads this
    {
      machine.frames == old(machine.frames) && draining == old(draining) && old(steps) <= steps
    }

    constructor ()
      ensures Valid() && steps == []
    {
      status, queue, draining, delivered, reports := Disconnected, [], false, [], 0;
      steps, start := [], State(Disconnected, [], false, [], [], []);
      machine := State(Disconnected, [], false, [], [], []);
    }

    /** Records a step whose effect the fields already show. */
    ghost method Take(step: Step)
      requires Logged() && Shows(Do(machine, step))
      modifies this`machine, this`steps
      ensures Valid() && machine == Do(old(machine), step) && steps == old(steps) + [step]
    {
      RunSnoc(start, steps, step);
      machine, steps := Do(machine, step), steps + [step];
    }

    method CloseBridge()
      requires Valid() && Outside(machine)
      modifies this
      ensures Valid() && Balanced() && machine == Do(old(machine), Close) && steps == old(steps) + [Close]
    {
      status := Closed;
      queue := [];
      Take(Close);
    }

    /** The callback's calls, one after the other. */
    method RunCallback(send: Callback)
      requires Valid() && Outside(machine)
      modifies this
      ensures Valid() && Balanced()
      decreases send, 0
    {
      var i := 0;
      while i < |send.calls|
        invariant 0 <= i <= |send.calls|
        invariant Valid() && Balanced()
      {
        match send.calls[i] {
          case ReportCall(eventName, inner) => ReportEvent(eventName, inner);
          case UpdateCall(newStatus, sends) => UpdateStatus(newStatus, sends);
          case CloseCall => CloseBridge();
        }
        i := i + 1;
      }
    }

    /** forwardReport: a callback that throws is caught, so it always comes back. The step
        is the one that made the send. */
    method ForwardReport(controlId: int, data: ReportData, send: Callback, ghost step: Step, ghost t: State)
      requires Logged() && t == Do(machine, step) && |t.frames| > 0 && Outside(t)
      requires Shows(t.(delivered := delivered)) && t.delivered == delivered + [Delivery(controlId, data)]
      modifies this
      ensures Valid() && old(steps) + [step] <= steps && draining == old(draining)
      ensures machine.frames == DoReturn(t).frames
      decreases send, 1
    {
      delivered := delivered + [Delivery(controlId, data)];
      Take(step);
      RunCallback(send);
      Take(Return);
    }

    method ReportEvent(eventName: string, send: Callback)
      requires Valid() && Outside(machine)
      modifies this
      ensures Valid() && Balanced() && old(steps) + [Report(eventName)] <= steps
      decreases send, 2
    {
      if status.Closed? {
        Take(Report(eventName));
        return;
      }
      var data := ReportData(reports, eventName);
      reports := reports + 1;
      if status.Forward? {
        ForwardReport(status.controlId, data, send, Report(eventName), DoReport(machine, eventName));
      } else {
        Enqueue(data);
      }
    }

    method Enqueue(data: ReportData)
      requires Logged() && Outside(machine) && machine.status == status && status.Disconnected?
      requires Shows(machine.(fate := machine.fate + [Queued])) && data.serial == |machine.fate|
      modifies this
      ensures Valid() && Balanced() && steps == old(steps) + [Report(data.eventName)]
    {
      if |queue| >= MAX_REPORT_QUEUE_LENGTH {
        queue := queue[1..];
      }
      queue := queue + [data];
      Take(Report(data.eventName));
    }

    method UpdateStatus(newStatus: Status, sends: Script)
      requires Valid() && Outside(machine)
      modifies this
      ensures Valid() && Balanced() && old(steps) + [Update(newStatus)] <= steps
      decreases sends, 3
    {
      if status.Closed? {
        Take(Update(newStatus));
        return;
      }
      status := newStatus;
      Drain(sends);
    }

    /** drain, entered from updateStatus: the loop ends, however the callbacks behave. */
    method Drain(sends: Script)
      requires Logged() && Outside(machine) && !machine.status.Closed? && Shows(machine.(status := status))
      modifies this
      ensures Valid() && Balanced() && old(steps) + [Update(old(status))] <= steps
      decreases sends, 2
    {
      if draining {
        Take(Update(status));
        return;
      }
      draining := true;
      Take(Update(status));
      var i := 0;
      while |queue| > 0 && status.Forward?
        invariant 0 <= i <= |sends.sends|
        invariant Valid() && draining && machine.frames == old(machine.frames) + [InDrain(false)]
        invariant old(steps) + [Update(old(status))] <= steps
        decreases |sends.sends| - i, |queue|
      {
        if i < |sends.sends| {
          SendFirst(sends.sends[i]);
          i := i + 1;
        } else {
          SendFirstQuietly();
        }
      }
      draining := false;
      Take(Loop);
    }

    /** A turn whose callback does nothing. */
    method SendFirstQuietly()
      requires Valid() && !Outside(machine) && |queue| > 0 && status.Forward?
      modifies this
      ensures Valid() && Balanced() && steps == old(steps) + [Loop] + [Return]
      ensures queue == old(queue)[1..] && delivered == old(delivered) + [Delivery(old(status).controlId, old(queue)[0])]
    {
      delivered := delivered + [Delivery(status.controlId, queue[0])];
      queue := queue[1..];
      Take(Loop);
      Take(Return);
    }

    /** One turn of the drain loop: dequeue before sending. */
    method SendFirst(send: Callback)
      requires Valid() && !Outside(machine) && |queue| > 0 && status.Forward?
      modifies this
      ensures Valid() && Balanced() && old(steps) + [Loop] <= steps
      decreases send, 2
    {
      var data := queue[0];
      queue := queue[1..];
      ForwardReport(status.controlId, data, send, Loop, DoLoop(machine));
    }
  }
}
