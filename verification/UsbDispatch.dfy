/** The queue between the reader and the dispatcher of a USB client. Other threads that shut
    the transport down put quit markers into the same queue. */
module UsbDispatch {
  import opened Bytes
  import opened Framing
  import opened UsbClientIo

  function Quits(n: nat): (r: seq<seq<byte>>)
    ensures |r| == n && forall i :: 0 <= i < n ==> r[i] == QUIT
  {
    seq(n, i => QUIT)
  }

  /** incoming_message_queue_ from the reader's put number i on. Every other thread that
      shuts the transport down puts a quit marker at a time of its own: gaps(i) of them come
      right before put number i. */
  function Merged(puts: seq<seq<byte>>, gaps: nat -> nat, i: nat): (queue: seq<seq<byte>>)
    requires i <= |puts|
    decreases |puts| - i
  {
    Quits(gaps(i)) + if i == |puts| then [] else [puts[i]] + Merged(puts, gaps, i + 1)
  }

  /** What the dispatcher hands to OnMessage: all but empty messages, up to a quit marker. */
  function Dispatched(queue: seq<seq<byte>>): (r: seq<seq<byte>>) {
    if queue == [] || queue[0] == QUIT then []
    else (if |queue[0]| > 0 then [queue[0]] else []) + Dispatched(queue[1..])
  }

  /** UsbClient::MessageDispatcher, on a queue that holds a quit marker. */
  method MessageDispatcher(queue: seq<seq<byte>>) returns (handed: seq<seq<byte>>)
    requires QUIT in queue
    ensures handed == Dispatched(queue)
  {
    handed := [];
    var i := 0;
    ghost var last :| 0 <= last < |queue| && queue[last] == QUIT;
    assert queue[0..] == queue;
    while queue[i] != QUIT
      invariant 0 <= i <= last
      invariant handed + Dispatched(queue[i..]) == Dispatched(queue)
      decreases last - i
    {
      TakeOne(queue, i, handed);
      if |queue[i]| > 0 {
        handed := handed + [queue[i]];
      }
      i := i + 1;
    }
  }

  lemma TakeOne(queue: seq<seq<byte>>, i: nat, handed: seq<seq<byte>>)
    requires i < |queue| && queue[i] != QUIT
    ensures handed + Dispatched(queue[i..]) ==
            (if |queue[i]| > 0 then handed + [queue[i]] else handed) + Dispatched(queue[i + 1..])
  {
    assert queue[i..][1..] == queue[i + 1..];
  }

  /** The reader's puts that come before the first quit marker of another thread. */
  function Unbroken(puts: seq<seq<byte>>, gaps: nat -> nat, i: nat): (j: nat)
    requires i <= |puts|
    ensures i <= j <= |puts|
    ensures (forall k :: i <= k < j ==> gaps(k) == 0) && (j < |puts| ==> gaps(j) > 0)
    decreases |puts| - i
  {
    if i == |puts| || gaps(i) > 0 then i else Unbroken(puts, gaps, i + 1)
  }

  /** Other threads' quit markers cut the dispatch short, and do nothing else. */
  lemma {:induction false} DispatchedIsCut(puts: seq<seq<byte>>, gaps: nat -> nat, i: nat)
    requires i <= |puts|
    ensures Dispatched(Merged(puts, gaps, i)) == Dispatched(puts[i..Unbroken(puts, gaps, i)])
    decreases |puts| - i
  {
    var j := Unbroken(puts, gaps, i);
    if i < |puts| && gaps(i) == 0 {
      DispatchedIsCut(puts, gaps, i + 1);
      assert Merged(puts, gaps, i) == [puts[i]] + Merged(puts, gaps, i + 1);
      assert puts[i..j] == [puts[i]] + puts[i + 1..j];
    } else {
      assert puts[i..j] == [];
    }
  }

  /** Cutting the queue cuts what is dispatched. */
  lemma {:induction false} DispatchedPrefix(a: seq<seq<byte>>, b: seq<seq<byte>>)
    ensures Dispatched(a) <= Dispatched(a + b)
    decreases |a|
  {
    if a != [] {
      assert (a + b)[1..] == a[1..] + b;
      DispatchedPrefix(a[1..], b);
    }
  }

  lemma {:induction false} QuitEnds(a: seq<seq<byte>>, b: seq<seq<byte>>)
    requires b != [] && b[0] == QUIT
    ensures Dispatched(a + b) == Dispatched(a)
    decreases |a|
  {
    if a == [] {
      assert a + b == b;
    } else {
      assert (a + b)[1..] == a[1..] + b;
      QuitEnds(a[1..], b);
    }
  }

  function NonEmpty(ms: seq<seq<byte>>): (r: seq<seq<byte>>) {
    if ms == [] then [] else (if |ms[0]| > 0 then [ms[0]] else []) + NonEmpty(ms[1..])
  }

  /** A payload that reads "quit" ends the dispatch: every message that is not empty is
      handed over iff none of them is the quit marker itself. */
  lemma {:induction false} AllDispatchedIff(ms: seq<seq<byte>>)
    ensures Dispatched(ms) == NonEmpty(ms) <==> QUIT !in ms
    decreases |ms|
  {
    if ms != [] {
      AllDispatchedIff(ms[1..]);
      assert ms == [ms[0]] + ms[1..];
      var d, n := Dispatched(ms[1..]), NonEmpty(ms[1..]);
      if ms[0] != QUIT {
        assert |ms[0]| > 0 ==> ([ms[0]] + d)[1..] == d && ([ms[0]] + n)[1..] == n;
        assert |ms[0]| == 0 ==> [] + d == d && [] + n == n;
      }
    }
  }

  // ---------------------------------------------------------------- what is selected

  /** `picked` is what is left of ms, in order, without the messages `drop` names: the i-th
      message is picked iff it is not dropped. */
  predicate Selects(ms: seq<seq<byte>>, drop: seq<byte> -> bool, picked: seq<seq<byte>>, at: seq<nat>) {
    && |at| == |picked|
    && (forall j, k :: 0 <= j < k < |at| ==> at[j] < at[k])
    && (forall j :: 0 <= j < |at| ==> at[j] < |ms| && picked[j] == ms[at[j]])
    && (forall i :: 0 <= i < |ms| ==> (i in at <==> !drop(ms[i])))
  }

  /** The same positions, one further on, behind a message that is kept or not. */
  function Shifted(at: seq<nat>, first: bool): (r: seq<nat>)
    ensures |r| == |at| + if first then 1 else 0
  {
    (if first then [0] else []) + seq(|at|, j requires 0 <= j < |at| => at[j] + 1)
  }

  lemma InShifted(at: seq<nat>, first: bool, i: nat)
    ensures i in Shifted(at, first) <==> if i == 0 then first else i - 1 in at
  {
    var off, r := if first then 1 else 0, Shifted(at, first);
    assert forall j :: 0 <= j < |at| ==> r[off + j] == at[j] + 1;
    assert forall j :: off <= j < |r| ==> r[j] == at[j - off] + 1;
    if i > 0 && i - 1 in at {
      var j :| 0 <= j < |at| && at[j] == i - 1;
      assert r[off + j] == i;
    }
    if i == 0 && first {
      assert r[0] == 0;
    }
  }

  lemma ShiftPicks(m: seq<byte>, ms: seq<seq<byte>>, keep: bool, picked: seq<seq<byte>>, at: seq<nat>)
    requires |at| == |picked| && (forall j, k :: 0 <= j < k < |at| ==> at[j] < at[k])
    requires forall j :: 0 <= j < |at| ==> at[j] < |ms| && picked[j] == ms[at[j]]
    ensures var r, out, all := Shifted(at, keep), (if keep then [m] else []) + picked, [m] + ms;
            && |r| == |out| && (forall j, k :: 0 <= j < k < |r| ==> r[j] < r[k])
            && (forall j :: 0 <= j < |r| ==> r[j] < |all| && out[j] == all[r[j]])
  {
    var off, r, out := if keep then 1 else 0, Shifted(at, keep), (if keep then [m] else []) + picked;
    assert forall j :: off <= j < |r| ==> r[j] == at[j - off] + 1 && out[j] == picked[j - off];
  }

  lemma ShiftSelects(m: seq<byte>, ms: seq<seq<byte>>, drop: seq<byte> -> bool, picked: seq<seq<byte>>, at: seq<nat>)
    requires Selects(ms, drop, picked, at)
    ensures Selects([m] + ms, drop, (if drop(m) then [] else [m]) + picked, Shifted(at, !drop(m)))
  {
    ShiftPicks(m, ms, !drop(m), picked, at);
    var all := [m] + ms;
    forall i | 0 <= i < |all| ensures i in Shifted(at, !drop(m)) <==> !drop(all[i]) {
      InShifted(at, !drop(m), i);
      assert i > 0 ==> all[i] == ms[i - 1];
    }
  }

  /** The session filter lets through exactly the payloads it does not drop, in order. */
  lemma {:induction false} KeptSelects(ms: seq<seq<byte>>, drop: seq<byte> -> bool) returns (at: seq<nat>)
    ensures Selects(ms, drop, Kept(ms, drop), at)
    decreases |ms|
  {
    if ms == [] {
      at := [];
    } else {
      var rest := KeptSelects(ms[1..], drop);
      ShiftSelects(ms[0], ms[1..], drop, Kept(ms[1..], drop), rest);
      at := Shifted(rest, !drop(ms[0]));
      assert ms == [ms[0]] + ms[1..];
    }
  }

  /** The dispatcher hands over exactly the messages before the first quit marker that are
      not empty, in order. */
  lemma {:induction false} DispatchedSelects(queue: seq<seq<byte>>, n: nat) returns (at: seq<nat>)
    requires n <= |queue| && QUIT !in queue[..n] && (n < |queue| ==> queue[n] == QUIT)
    ensures Selects(queue[..n], m => |m| == 0, Dispatched(queue), at)
    decreases n
  {
    if n == 0 {
      at := [];
    } else {
      assert queue[0] == queue[..n][0];
      assert queue[1..][..n - 1] == queue[..n][1..];
      var rest := DispatchedSelects(queue[1..], n - 1);
      ShiftSelects(queue[0], queue[1..][..n - 1], m => |m| == 0, Dispatched(queue[1..]), rest);
      at := Shifted(rest, |queue[0]| > 0);
      assert queue[..n] == [queue[0]] + queue[1..][..n - 1];
    }
  }

  /** Nothing is dropped, empty or a quit marker: then all of it goes through. */
  lemma {:induction false} AllGoThrough(ms: seq<seq<byte>>, drop: seq<byte> -> bool)
    requires forall i :: 0 <= i < |ms| ==> !drop(ms[i]) && ms[i] != [] && ms[i] != QUIT
    ensures Kept(ms, drop) == ms && Dispatched(ms) == ms
    decreases |ms|
  {
    if ms != [] {
      AllGoThrough(ms[1..], drop);
      assert ms == [ms[0]] + ms[1..];
    }
  }

  // ---------------------------------------------------------------- end to end

  /** The puts of a reader: the kept payloads, then one or two quit markers. */
  predicate EndsInQuit(puts: seq<seq<byte>>, kept: seq<seq<byte>>) {
    kept < puts && puts[|kept|] == QUIT
  }

  lemma CutInside(puts: seq<seq<byte>>, kept: seq<seq<byte>>, j: nat)
    requires EndsInQuit(puts, kept) && j <= |kept|
    ensures Dispatched(puts[..j]) <= Dispatched(kept) && (j == |kept| ==> puts[..j] == kept)
  {
    assert puts[..j] == kept[..j] && kept == kept[..j] + kept[j..];
    DispatchedPrefix(kept[..j], kept[j..]);
  }

  lemma CutBehind(puts: seq<seq<byte>>, kept: seq<seq<byte>>, j: nat)
    requires EndsInQuit(puts, kept) && |kept| < j <= |puts|
    ensures Dispatched(puts[..j]) == Dispatched(kept)
  {
    var rest := puts[..j][|kept|..];
    assert puts[..j] == kept + rest;
    QuitEnds(kept, rest);
  }

  /** Whatever quit markers other threads put in between, OnMessage gets the dispatch of a
      prefix of the kept payloads, and of all of them when the cut comes behind them. */
  lemma CutAt(puts: seq<seq<byte>>, kept: seq<seq<byte>>, j: nat)
    requires EndsInQuit(puts, kept) && j <= |puts|
    ensures Dispatched(puts[..j]) <= Dispatched(kept)
    ensures j >= |kept| ==> Dispatched(puts[..j]) == Dispatched(kept)
  {
    if j <= |kept| {
      CutInside(puts, kept, j);
    } else {
      CutBehind(puts, kept, j);
    }
  }

  lemma {:induction false} PutIsMerged(puts: seq<seq<byte>>, gaps: nat -> nat, i: nat, k: nat)
    requires i <= k < |puts|
    ensures puts[k] in Merged(puts, gaps, i)
    decreases k - i
  {
    if i < k {
      PutIsMerged(puts, gaps, i + 1, k);
      InTail(Quits(gaps(i)), puts[i], Merged(puts, gaps, i + 1), puts[k]);
    } else {
      InMiddle(Quits(gaps(i)), puts[i], Merged(puts, gaps, i + 1));
    }
  }

  lemma InTail<T>(a: seq<T>, x: T, b: seq<T>, y: T)
    requires y in b
    ensures y in a + ([x] + b)
  {
    var i :| 0 <= i < |b| && b[i] == y;
    assert (a + ([x] + b))[|a| + 1 + i] == y;
  }

  lemma InMiddle<T>(a: seq<T>, x: T, b: seq<T>)
    ensures x in a + ([x] + b)
  {
    assert (a + ([x] + b))[|a|] == x;
  }

  /** The dispatcher on the queue of one reader. */
  method Deliver(puts: seq<seq<byte>>, gaps: nat -> nat, ghost kept: seq<seq<byte>>) returns (handed: seq<seq<byte>>)
    requires EndsInQuit(puts, kept)
    ensures handed == Dispatched(Merged(puts, gaps, 0)) && handed <= Dispatched(kept)
    ensures Unbroken(puts, gaps, 0) >= |kept| ==> handed == Dispatched(kept)
  {
    PutIsMerged(puts, gaps, 0, |kept|);
    handed := MessageDispatcher(Merged(puts, gaps, 0));
    DispatchedIsCut(puts, gaps, 0);
    FromZero(puts, Unbroken(puts, gaps, 0));
    CutAt(puts, kept, Unbroken(puts, gaps, 0));
  }

  lemma FromZero<T>(s: seq<T>, j: nat)
    requires j <= |s|
    ensures s[0..j] == s[..j]
  {
  }

  /** The messages that are complete in the first n octets of the packed stream. */
  function Arrived(ms: seq<seq<byte>>, n: nat): (r: seq<seq<byte>>)
    requires Fit(ms, 4) && n <= |PackAll(ms)|
    ensures r <= ms && (n == |PackAll(ms)| ==> r == ms)
  {
    ScanPacked(ms, n);
    Scan(PackAll(ms)[..n]).payloads
  }

  /** What one reader makes of the packed messages: under every pattern of short reads,
      timeouts, errors and stops it puts the kept ones among the messages complete in the n
      octets it has read, then its quit markers. If the socket serves the stream and nobody
      stops the client, that is every message. */
  method ReadPacked(ms: seq<seq<byte>>, script: seq<Recv>, stopAt: nat, drop: seq<byte> -> bool)
    returns (puts: seq<seq<byte>>, n: nat)
    requires Fit(ms, 4)
    ensures n <= |PackAll(ms)|
    ensures var kept := Kept(Arrived(ms, n), drop);
            puts == kept + [QUIT] || puts == kept + [QUIT, QUIT]
    ensures exists at :: |at| < |puts| && Selects(Arrived(ms, n), drop, puts[..|at|], at)
    ensures Serves(script) && stopAt > |script| + |PackAll(ms)| + 1 ==> Arrived(ms, n) == ms
  {
    var sent := PackAll(ms);
    var reader := new Reader(script, sent, stopAt, drop);
    var shutdown := reader.ReadMessage();
    n := |sent| - |reader.stream|;
    assert sent[..n] == reader.consumed;
    ScanPacked(ms, n);
    puts := reader.puts;
    ghost var at := KeptSelects(Arrived(ms, n), drop);
    assert puts[..|at|] == Kept(Arrived(ms, n), drop);
  }

  /** Connector to native, end to end: whatever quit markers other threads put into the queue
      in between, OnMessage gets the dispatch of a prefix of the kept payloads among the
      messages that arrived, and of all of them if no such marker comes before the reader is
      through. All messages arrive if the socket serves the stream and nobody stops the client;
      if besides none is dropped, empty or a quit marker, OnMessage gets exactly the messages. */
  method ReceivePacked(ms: seq<seq<byte>>, script: seq<Recv>, stopAt: nat, drop: seq<byte> -> bool, gaps: nat -> nat)
    returns (handed: seq<seq<byte>>, n: nat)
    requires Fit(ms, 4)
    ensures n <= |PackAll(ms)|
    ensures var kept := Kept(Arrived(ms, n), drop);
            && handed <= Dispatched(kept)
            && ((forall i :: 0 <= i < |kept| ==> gaps(i) == 0) ==> handed == Dispatched(kept))
    ensures Serves(script) && stopAt > |script| + |PackAll(ms)| + 1 ==> Arrived(ms, n) == ms
    ensures Serves(script) && stopAt > |script| + |PackAll(ms)| + 1 && (forall i :: 0 <= i < |ms| ==> gaps(i) == 0)
            && (forall i :: 0 <= i < |ms| ==> !drop(ms[i]) && ms[i] != [] && ms[i] != QUIT)
            ==> handed == ms
  {
    var puts;
    puts, n := ReadPacked(ms, script, stopAt, drop);
    ghost var kept := Kept(Arrived(ms, n), drop);
    assert EndsInQuit(puts, kept);
    handed := Deliver(puts, gaps, kept);
    if forall i :: 0 <= i < |ms| ==> !drop(ms[i]) && ms[i] != [] && ms[i] != QUIT {
      AllGoThrough(ms, drop);
    }
  }
}
