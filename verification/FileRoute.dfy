/** The file sink as the Runtime's route.

The Runtime (module Runtime) and the file sink (module RawFileSink) run side by side. The worker submits frames to the
sink, retires its deliveries and stops it; the sink's loop thread appends frames, and its completions are what the
Runtime's machine calls a route's deliveries. Each keeps its own guards. What is shown is that they agree: until the
worker has settled its counts, the outcomes the Runtime reports on are the sink's, so its reports are exact over the
file. An append the system still holds when the route is stopped may end after that; the counts are not touched again.
*/
module FileRoute {
  import opened Bytes
  import opened DeliveryAccounting
  import opened Options
  import Runtime
  import Sink = RawFileSink

  datatype State = State(runtime: Runtime.State, sink: Sink.State)

  datatype Action =
    | Own(domain: Runtime.Action)     // blocks of callers and of the worker that leave the route alone
    | Loop(step: Sink.Action)         // blocks of the loop thread, and the worker's use of its claim
    | Submit                          // the worker hands the encoded frame to the sink
    | Work                            // the worker's next block, where it has no choice
    | StopRoute                       // the destructor stops the route

  /* --- Steps ------------------------------------------------------------------------------------------- */

  predicate LeavesRoute(a: Runtime.Action) {
    || a.Accept? || a.StartAction? || a.RecycleNode? || a.RequestDestruction? || a.RefuseEncoding? || a.FindNothing?
    || a.AnswerQuiescent? || a.AnswerClosed?
  }

  /** The worker asks for the close while it asks whether the route is closed, and discards once it has settled. */
  predicate LoopStep(s: State, a: Sink.Action) {
    || a.ClaimWrite? || a.ResetClaim? || a.Encode? || a.Wake? || a.CompleteWrite? || a.CompleteClose?
    || (a.RequestClose? && s.runtime.worker.AskingClosed?)
    || (a.Discard? && s.runtime.ledger.settled)
  }

  predicate Enabled(s: State, a: Action) {
    match a
    case Own(domain) => LeavesRoute(domain)
    case Loop(step) => LoopStep(s, step)
    case Submit =>
      && s.runtime.worker.Delivering? && Runtime.Consumed(s.runtime) < s.runtime.accepted
      && Sink.Enabled(s.sink, Sink.Submit(|s.runtime.outcomes|))
    case Work => true
    case StopRoute => s.runtime.destroying
  }

  /** What a write completion means to the Runtime. */
  function Reported(s: Sink.State, result: int, landed: nat): Option<Runtime.Action>
    requires Sink.CanComplete(s, result, landed)
  {
    var slot := s.slots[s.writingSlot];
    if result < 0 then Some(Runtime.BreakRoute(s.done, result))
    else if result == 0 && slot.written != slot.encoded then Some(Runtime.BreakRoute(s.done, Sink.EIO))
    else if slot.written + landed < slot.encoded then None
    else Some(Runtime.Complete(s.done, true))
  }

  /** The append that a stop leaves to the system, if any. */
  function KeptAppend(s: Sink.State): nat { if s.writing then s.done else |s.frames| }

  /** The sink's part in the worker's next block. */
  function WorkedSink(s: State): Sink.State {
    match s.runtime.worker
    case Retiring =>
      if Runtime.CanRetire(s.runtime) then Sink.Step(s.sink, Sink.Retire(s.runtime.routeRetired)) else s.sink
    case HaltingRoute(_) => Sink.Step(s.sink, Sink.Stop)
    case _ => s.sink
  }

  function Step(s: State, a: Action): State {
    if !Enabled(s, a) then s else
    match a
    case Own(domain) => s.(runtime := Runtime.Step(s.runtime, domain))
    case Loop(step) =>
      var r := if step.CompleteWrite? && Sink.Enabled(s.sink, step) then Reported(s.sink, step.result, step.landed)
               else None;
      State(if r.Some? then Runtime.Step(s.runtime, r.value) else s.runtime, Sink.Step(s.sink, step))
    case Submit =>
      var sink := Sink.Step(s.sink, Sink.Submit(|s.runtime.outcomes|));
      var n := |sink.book.outcomes|;
      State(if n == 0 then s.runtime
            else Runtime.Step(s.runtime, Runtime.Deliver(sink.book.outcomes[n - 1].bytes,
                                                         sink.book.outcomes[n - 1].delivery)), sink)
    case Work => State(Runtime.Step(s.runtime, Runtime.Work(KeptAppend(s.sink))), WorkedSink(s))
    case StopRoute =>
      State(Runtime.Step(s.runtime, Runtime.StopRoute(KeptAppend(s.sink))), Sink.Step(s.sink, Sink.Stop))
  }

  function Run(s: State, schedule: seq<Action>): State {
    if schedule == [] then s
    else Step(Run(s, schedule[..|schedule| - 1]), schedule[|schedule| - 1])
  }

  ghost predicate Start(s: State) {
    && Runtime.Start(s.runtime) && Sink.Start(s.sink) && s.sink.book.orderly
    && s.runtime.outcomes == [] && s.runtime.routeRetired == 0 && s.runtime.routeError == 0
    && !s.runtime.routeStopped && !s.runtime.ledger.settled
  }

  /* --- What the sink's blocks do to the outcomes --------------------------------------------------------- */

  predicate Pending(a: seq<Outcome>, retired: nat, k: nat) {
    retired <= k < |a| && a[k].delivery.InFlight?
  }

  /** One delivery fails and cancels every other in flight. */
  predicate Breaks(a: seq<Outcome>, b: seq<Outcome>, retired: nat, k: nat) {
    Pending(a, retired, k) && b == Runtime.Halted(a, retired, k)[k := a[k].(delivery := Failed)]
  }

  /** A frame in flight is not retired, and is queued or the one being appended. */
  lemma InFlightFrame(s: Sink.State, k: nat)
    requires Sink.Inv(s) && Sink.BookOk(s) && s.book.orderly && k < |s.frames|
    ensures s.book.outcomes[k].delivery.InFlight? <==> Sink.QueuedTicket(s.slots, k) || (s.writing && k == s.done)
    ensures s.book.outcomes[k].delivery.InFlight? ==> s.book.retired <= k
    ensures Sink.QueuedTicket(s.slots, k) ==> !(s.writing && k == s.done)
  {
    if s.writing {
      Sink.ActiveTicket(s);
    }
    SlotTickets(s);
    hide Sink.Inv;
    assert Sink.OutcomeOk(s.book.outcomes[k], k, s.frames[k], s.done, s.failure != 0, s.slots);
    if Sink.QueuedTicket(s.slots, k) {
      var i :| 0 <= i < |s.slots| && s.slots[i].state.Queued? && s.slots[i].ticket == k;
      assert Sink.EntryOk(s.slots[i], i, s.frames, s.book.outcomes);
    }
    if s.writing && k == s.done {
      assert Sink.EntryOk(s.slots[s.writingSlot], s.writingSlot, s.frames, s.book.outcomes);
    }
    if s.book.outcomes[k].delivery.InFlight? {
      var i := s.frames[k].slot;
      assert Sink.Holds(s.slots, i, k) && Sink.Carries(s.slots[i]);
    }
  }

  /** Queued frames come after the one being appended, and only that one is being appended. */
  lemma SlotTickets(s: Sink.State)
    requires Sink.Inv(s)
    ensures forall i :: 0 <= i < |s.slots| && s.slots[i].state.Queued? ==>
              s.slots[i].ticket >= s.done + (if s.writing then 1 else 0)
    ensures forall i :: 0 <= i < |s.slots| && s.slots[i].state.Writing? ==> s.writing && i == s.writingSlot
  {
    hide Sink.QueueOk, Sink.FramesOk, Sink.FileOk;
    forall i | 0 <= i < |s.slots|
      ensures s.slots[i].state.Queued? ==> s.slots[i].ticket >= s.done + (if s.writing then 1 else 0)
    {
      assert Sink.SlotOk(s.slots[i], i, s.frames, s.done, s.writing, s.failure != 0);
    }
  }

  /** Cancelling the queue halts the route but for the append in progress. */
  lemma CancelHalts(s: Sink.State, keep: nat)
    requires Sink.Inv(s) && Sink.BookOk(s) && s.book.orderly
    requires if s.writing then keep == s.done else keep >= |s.frames|
    ensures Sink.CancelBook(s.book, s.slots).outcomes == Runtime.Halted(s.book.outcomes, s.book.retired, keep)
  {
    forall k | 0 <= k < |s.book.outcomes|
      ensures Sink.CancelBook(s.book, s.slots).outcomes[k] == Runtime.Halted(s.book.outcomes, s.book.retired, keep)[k]
    {
      InFlightFrame(s, k);
    }
  }

  lemma FailBreaks(s: Sink.State, bytes: seq<byte>, error: int)
    requires Sink.Inv(s) && Sink.BookOk(s) && s.book.orderly && s.writing && s.writingSlot < |s.slots|
    ensures Breaks(s.book.outcomes, Sink.FailedWrite(s, bytes, error).book.outcomes, s.book.retired, s.done)
  {
    ActiveFrame(s);
    var b := Sink.FailedWrite(s, bytes, error).book.outcomes;
    forall k | 0 <= k < |s.book.outcomes|
      ensures b[k] == Runtime.Halted(s.book.outcomes, s.book.retired, s.done)
                      [s.done := s.book.outcomes[s.done].(delivery := Failed)][k]
    {
      InFlightFrame(s, k);
    }
  }

  lemma ActiveFrame(s: Sink.State)
    requires Sink.Inv(s) && Sink.BookOk(s) && s.book.orderly && s.writing
    ensures s.writingSlot < |s.slots| && s.slots[s.writingSlot].ticket == s.done
    ensures |s.frames| == |s.book.outcomes| && Pending(s.book.outcomes, s.book.retired, s.done)
  {
    Sink.ActiveTicket(s);
    hide Sink.Inv;
    assert Sink.EntryOk(s.slots[s.writingSlot], s.writingSlot, s.frames, s.book.outcomes);
    InFlightFrame(s, s.done);
  }

  /** The Runtime and the sink agree on the route until the worker has settled its counts. */
  ghost predicate Agreed(r: Runtime.State, k: Sink.State) {
    && r.outcomes == k.book.outcomes && r.routeRetired == k.book.retired && k.book.orderly
    && r.routeError == k.failure && r.routeStopped == k.stopping
    && (k.closeRequested ==> k.stopping || r.sealed)
  }

  ghost predicate Inv(s: State) {
    && Runtime.Inv(s.runtime) && Sink.Inv(s.sink) && Sink.BookOk(s.sink)
    && (s.sink.closing || s.sink.closed ==> s.sink.closeRequested)
    && (!s.runtime.ledger.settled ==> Agreed(s.runtime, s.sink))
  }

  lemma SinkStep(s: Sink.State, a: Sink.Action)
    requires Sink.Inv(s) && Sink.BookOk(s) && (s.closing || s.closed ==> s.closeRequested)
    ensures var s' := Sink.Step(s, a);
            Sink.Inv(s') && Sink.BookOk(s') && (s'.closing || s'.closed ==> s'.closeRequested)
  {
    hide Sink.Inv, Sink.BookOk;
    Sink.InvStep(s, a);
    Sink.BookStep(s, a);
    CloseFollows(s, a);
  }

  lemma CloseFollows(s: Sink.State, a: Sink.Action)
    requires s.closing || s.closed ==> s.closeRequested
    ensures var s' := Sink.Step(s, a); s'.closing || s'.closed ==> s'.closeRequested
  {
    hide Sink.CancelBook, Sink.CancelQueued, Sink.Pump, Sink.Finish, Sink.Claimable, Sink.CompletedAt, Sink.CanComplete;
    PumpCloses(s);
    if a.CompleteWrite? && Sink.CanComplete(s, a.result, a.landed) {
      FinishCloses(s, a.result, a.landed);
    }
  }

  lemma PumpCloses(s: Sink.State)
    ensures var s' := Sink.Pump(s);
            && s'.closeRequested == s.closeRequested && s'.closed == s.closed
            && (s'.closing ==> s.closing || s.closeRequested)
  {
    hide Sink.LowestQueued;
  }

  lemma FinishCloses(s: Sink.State, result: int, landed: nat)
    requires Sink.CanComplete(s, result, landed)
    ensures var s' := Sink.Finish(s, result, landed);
            && s'.closeRequested == s.closeRequested && s'.closed == s.closed
            && (s'.closing ==> s.closing || s.closeRequested)
  {
    hide Sink.Pump, Sink.CancelBook, Sink.CancelQueued;
    var slot := s.slots[s.writingSlot];
    var bytes := slot.buffer[slot.written..slot.written + landed];
    PumpCloses(Sink.FailedWrite(s, bytes, result));
    PumpCloses(Sink.FailedWrite(s, bytes, Sink.EIO));
    PumpCloses(Sink.DeliveredWrite(s, bytes));
  }

  /** What the route-neutral blocks keep. */
  lemma OwnKeeps(r: Runtime.State, a: Runtime.Action)
    requires LeavesRoute(a)
    ensures var r' := Runtime.Step(r, a);
            && r'.outcomes == r.outcomes && r'.routeRetired == r.routeRetired && r'.routeError == r.routeError
            && r'.routeStopped == r.routeStopped && (r.ledger.settled ==> r'.ledger.settled) && (r.sealed ==> r'.sealed)
  {
    hide Runtime.Worked, Runtime.Started, Runtime.Consumed, Runtime.Halted;
    if a.StartAction? {
      StartedKeeps(r, a.kind, a.node);
    }
  }

  /** Nothing of the route changes, and what completes carries the outcomes of the moment. */
  ghost predicate CompletesNow(r: Runtime.State, r': Runtime.State) {
    && r'.outcomes == r.outcomes && r'.routeRetired == r.routeRetired && r'.routeError == r.routeError
    && r'.routeStopped == r.routeStopped && r'.sealed == r.sealed && (r.ledger.settled ==> r'.ledger.settled)
    && forall id :: id in r'.completions && id !in r.completions ==> r'.completions[id].outcomes == r.outcomes
  }

  lemma NowKeeps(r: Runtime.State, verdict: Runtime.OperationOutcome, watermark: nat)
    ensures CompletesNow(r, Runtime.CompleteNow(r, verdict, watermark))
  {
    hide Runtime.BuildReport;
  }

  lemma NodesKeep(r: Runtime.State, s1: Runtime.State, r': Runtime.State)
    requires CompletesNow(s1, r') && s1.outcomes == r.outcomes && s1.routeRetired == r.routeRetired
    requires s1.routeError == r.routeError && s1.routeStopped == r.routeStopped && s1.sealed == r.sealed
    requires s1.ledger == r.ledger && s1.completions == r.completions
    ensures CompletesNow(r, r')
  {}

  lemma StartedKeeps(r: Runtime.State, kind: Runtime.Kind, node: nat)
    ensures CompletesNow(r, Runtime.Started(r, kind, node))
  {
    hide Runtime.CompleteNow, CompletesNow;
    var r' := Runtime.Started(r, kind, node);
    var s1 := r.(nodes := r.nodes + {node});
    if !r.accepting {
      var late := if r.destroying then Runtime.Cancelled'
                  else if r.routeFailed then Runtime.Failed' else Runtime.Succeeded;
      NowKeeps(s1, late, r.accepted);
      NodesKeep(r, s1, r');
    } else {
      var s2 := if kind.Shutdown? && !r.shutdownRequested then Runtime.CloseAdmission(s1.(shutdownRequested := true))
                else s1;
      StartedOpen(r, s2, kind, node);
    }
  }

  lemma StartedOpen(r: Runtime.State, s2: Runtime.State, kind: Runtime.Kind, node: nat)
    requires r.accepting
    requires var s1 := r.(nodes := r.nodes + {node});
             s2 == if kind.Shutdown? && !r.shutdownRequested then Runtime.CloseAdmission(s1.(shutdownRequested := true))
                   else s1
    ensures CompletesNow(r, Runtime.Started(r, kind, node))
  {
    hide Runtime.CompleteNow, CompletesNow;
    var i := Runtime.FirstFree(r.actions, 0);
    if kind.Drain? && r.accepted == r.ledger.retiredRecords {
      NowKeeps(s2, Runtime.Succeeded, r.accepted);
      NodesKeep(r, s2, Runtime.CompleteNow(s2, Runtime.Succeeded, r.accepted));
    } else if i == |r.actions| {
      NowKeeps(s2, Runtime.Failed', r.accepted);
      NodesKeep(r, s2, Runtime.CompleteNow(s2, Runtime.Failed', r.accepted));
    } else {
      Registered(r, s2, Runtime.Started(r, kind, node));
    }
  }

  lemma Registered(r: Runtime.State, s2: Runtime.State, r': Runtime.State)
    requires s2.outcomes == r.outcomes && s2.routeRetired == r.routeRetired && s2.routeError == r.routeError
    requires s2.routeStopped == r.routeStopped && s2.sealed == r.sealed && s2.ledger == r.ledger
    requires s2.completions == r.completions && r' == s2.(actions := r'.actions, started := r'.started)
    ensures CompletesNow(r, r')
  {}

  lemma OwnAgrees(s: State, a: Runtime.Action)
    requires Inv(s) && LeavesRoute(a)
    ensures Inv(Step(s, Own(a)))
  {
    hide Runtime.Inv, Sink.Inv, Sink.BookOk, Runtime.Step;
    Runtime.StepInv(s.runtime, a);
    OwnKeeps(s.runtime, a);
  }

  /** The completion of an append is the Runtime's completion of the delivery, and its failure the route's. */
  lemma FinishAgrees(r: Runtime.State, k: Sink.State, result: int, landed: nat)
    requires Sink.Inv(k) && Sink.BookOk(k) && Sink.CanComplete(k, result, landed) && Agreed(r, k) && !r.ledger.settled
    ensures var p := Reported(k, result, landed);
            Agreed(if p.Some? then Runtime.Step(r, p.value) else r, Sink.Finish(k, result, landed))
  {
    hide Sink.Inv, Sink.BookOk, Sink.Pump, Sink.FailedWrite, Sink.DeliveredWrite, Runtime.Step, Agreed;
    AgreedOrderly(r, k);
    ActiveFrame(k);
    NoFailureYet(k);
    var slot := k.slots[k.writingSlot];
    var bytes := slot.buffer[slot.written..slot.written + landed];
    if result < 0 {
      FailAgrees(r, k, bytes, result);
    } else if result == 0 && slot.written != slot.encoded {
      FailAgrees(r, k, bytes, Sink.EIO);
    } else if slot.written + landed >= slot.encoded {
      DeliverAgrees(r, k, bytes);
    } else {
      ContinueAgrees(r, k, bytes);
    }
  }

  lemma AgreedOrderly(r: Runtime.State, k: Sink.State)
    requires Agreed(r, k)
    ensures k.book.orderly
  {}

  lemma ContinueAgrees(r: Runtime.State, k: Sink.State, bytes: seq<byte>)
    requires Agreed(r, k) && k.writingSlot < |k.slots|
    ensures Agreed(r, Sink.ContinuedWrite(k, bytes))
  {}

  lemma DeliverAgrees(r: Runtime.State, k: Sink.State, bytes: seq<byte>)
    requires Agreed(r, k) && !r.ledger.settled && k.writingSlot < |k.slots| && k.slots[k.writingSlot].ticket == k.done
    requires Pending(k.book.outcomes, k.book.retired, k.done)
    ensures Agreed(Runtime.Step(r, Runtime.Complete(k.done, true)), Sink.Pump(Sink.DeliveredWrite(k, bytes)))
  {
    hide Sink.Pump, Runtime.Worked, Runtime.Started, Runtime.Consumed;
    PumpKeeps(Sink.DeliveredWrite(k, bytes));
  }

  lemma FailAgrees(r: Runtime.State, k: Sink.State, bytes: seq<byte>, error: int)
    requires Sink.Inv(k) && Sink.BookOk(k) && k.writing && k.writingSlot < |k.slots| && k.failure == 0 && error != 0
    requires Agreed(r, k) && !r.ledger.settled && Pending(k.book.outcomes, k.book.retired, k.done)
    ensures Agreed(Runtime.Step(r, Runtime.BreakRoute(k.done, error)), Sink.Pump(Sink.FailedWrite(k, bytes, error)))
  {
    hide Sink.Inv, Sink.BookOk, Sink.Pump, Sink.CancelBook, Runtime.Halted, Sink.CancelQueued;
    FailBreaks(k, bytes, error);
    FailedBook(k, bytes, error);
    PumpKeeps(Sink.FailedWrite(k, bytes, error));
  }

  lemma FailedBook(k: Sink.State, bytes: seq<byte>, error: int)
    requires k.writingSlot < |k.slots|
    ensures var k' := Sink.FailedWrite(k, bytes, error);
            k'.book.retired == k.book.retired && k'.book.orderly == k.book.orderly
  {}

  lemma NoFailureYet(k: Sink.State)
    requires Sink.Inv(k) && k.writing
    ensures k.failure == 0
  {
    hide Sink.SlotsOk, Sink.QueueOk, Sink.FramesOk;
  }

  lemma PumpKeeps(k: Sink.State)
    ensures var k' := Sink.Pump(k);
            && k'.book == k.book && k'.failure == k.failure && k'.stopping == k.stopping
            && k'.closeRequested == k.closeRequested && k'.frames == k.frames
  {
    hide Sink.LowestQueued;
  }

  /** The blocks that neither complete nor submit leave the outcomes alone. */
  lemma QuietKeeps(k: Sink.State, a: Sink.Action)
    requires a.ClaimWrite? || a.ResetClaim? || a.Encode? || a.Wake? || a.CompleteClose? || a.RequestClose?
    ensures var k' := Sink.Step(k, a);
            && k'.book == k.book && k'.failure == k.failure && k'.stopping == k.stopping
            && (k'.closeRequested ==> k.closeRequested || a.RequestClose?)
  {
    hide Sink.Pump, Sink.Claimable;
    PumpKeeps(k);
  }

  lemma LoopAgrees(s: State, a: Sink.Action)
    requires Inv(s) && LoopStep(s, a)
    ensures Inv(Step(s, Loop(a)))
  {
    hide Runtime.Inv, Sink.Inv, Sink.BookOk, Runtime.Step, Sink.Finish, Agreed, Sink.CanComplete, Sink.Pump;
    SinkStep(s.sink, a);
    if a.CompleteWrite? {
      if Sink.Enabled(s.sink, a) {
        var p := Reported(s.sink, a.result, a.landed);
        if p.Some? {
          Runtime.StepInv(s.runtime, p.value);
          ReportKeeps(s.runtime, p.value);
        }
        if !s.runtime.ledger.settled {
          FinishAgrees(s.runtime, s.sink, a.result, a.landed);
        }
      }
    } else if !s.runtime.ledger.settled {
      SealedWhileAsking(s.runtime);
      QuietAgrees(s.runtime, s.sink, a);
    }
  }

  lemma QuietAgrees(r: Runtime.State, k: Sink.State, a: Sink.Action)
    requires Agreed(r, k) && (a.RequestClose? ==> r.sealed)
    requires a.ClaimWrite? || a.ResetClaim? || a.Encode? || a.Wake? || a.CompleteClose? || a.RequestClose?
    ensures Agreed(r, Sink.Step(k, a))
  {
    hide Sink.Step;
    QuietKeeps(k, a);
  }

  lemma SealedWhileAsking(r: Runtime.State)
    requires Runtime.Inv(r)
    ensures r.worker.AskingClosed? ==> r.sealed
    ensures r.sealed ==> Runtime.Consumed(r) == r.accepted
    ensures r.ledger.settled ==> !r.worker.Delivering?
  {
    hide Runtime.RouteOk, Runtime.LedgerOk, Runtime.ActionsOk, Runtime.HistoryOk, Runtime.Consumed;
  }

  lemma ReportKeeps(r: Runtime.State, a: Runtime.Action)
    requires a.BreakRoute? || a.Complete?
    ensures Runtime.Step(r, a).ledger == r.ledger
  {}

  lemma SubmitAgrees(s: State)
    requires Inv(s) && Enabled(s, Submit)
    ensures Inv(Step(s, Submit))
  {
    hide Runtime.Inv, Sink.Inv, Sink.BookOk, Sink.Submitted, Runtime.Worked, Runtime.Started, Runtime.Halted,
         Sink.Step, Runtime.Step;
    var a := Sink.Submit(|s.runtime.outcomes|);
    SinkStep(s.sink, a);
    SubmitOutcome(s.sink, |s.runtime.outcomes|);
    SealedWhileAsking(s.runtime);
    OpenWhileNotClosed(s.sink);
    FramesCounted(s.sink);
    var k := Sink.Step(s.sink, a);
    var o := k.book.outcomes[|k.book.outcomes| - 1];
    Runtime.StepInv(s.runtime, Runtime.Deliver(o.bytes, o.delivery));
    DeliverKeeps(s.runtime, o);
  }

  lemma DeliverKeeps(r: Runtime.State, o: Outcome)
    requires Runtime.Enabled(r, Runtime.Deliver(o.bytes, o.delivery))
    ensures var r' := Runtime.Step(r, Runtime.Deliver(o.bytes, o.delivery));
            && r'.outcomes == r.outcomes + [o] && r'.routeRetired == r.routeRetired && r'.ledger == r.ledger
            && r'.routeError == r.routeError && r'.routeStopped == r.routeStopped && r'.sealed == r.sealed
  {
    hide Runtime.Enabled;
  }

  /** A submission adds one outcome, in flight unless the route has stopped. */
  lemma SubmitOutcome(k: Sink.State, sequence: nat)
    requires Sink.Enabled(k, Sink.Submit(sequence))
    ensures var k' := Sink.Step(k, Sink.Submit(sequence));
            && |k'.book.outcomes| == |k.book.outcomes| + 1 && k'.book.outcomes[..|k.book.outcomes|] == k.book.outcomes
            && k'.book.outcomes[|k.book.outcomes|].delivery ==
               (if !k.stopping && k.failure == 0 && k.asyncOpen then InFlight else Cancelled)
            && k'.book.retired == k.book.retired && k'.book.orderly == (k.book.orderly && sequence == |k.frames|)
            && k'.failure == k.failure && k'.stopping == k.stopping && k'.closeRequested == k.closeRequested
  {}

  lemma OpenWhileNotClosed(k: Sink.State)
    requires Sink.Inv(k)
    ensures k.closed <==> !k.asyncOpen
  {
    hide Sink.SlotsOk, Sink.QueueOk, Sink.FramesOk, Sink.FileOk;
  }

  lemma FramesCounted(k: Sink.State)
    requires Sink.BookOk(k)
    ensures |k.book.outcomes| == |k.frames|
  {}

  lemma CompletedKeeps(r: Runtime.State, i: nat, verdict: Runtime.OperationOutcome)
    requires i < |r.actions|
    ensures CompletesNow(r, Runtime.CompleteSlot(r, i, verdict))
  {
    hide Runtime.BuildReport;
  }

  /** A block that completes an action, if one is left to complete. */
  lemma CompletingWork(r: Runtime.State, keep: nat)
    requires r.worker.Draining? || r.worker.CompletingAll? || r.worker.Finishing?
    ensures CompletesNow(r, Runtime.Worked(r, keep))
  {
    hide Runtime.CompleteSlot, Runtime.Decided, Runtime.Settle, Runtime.Consumed, Runtime.Halted,
         Runtime.RetireIntoLedger, CompletesNow;
    var verdict := if r.worker.Draining? then Runtime.Succeeded else r.worker.verdict;
    var i := if r.worker.Draining? then Runtime.FirstReady(r.actions, r.ledger.retiredRecords, 0)
             else Runtime.FirstActive(r.actions, 0);
    if i < |r.actions| {
      CompletedKeeps(r, i, verdict);
    } else {
      OnlyWorker(r, Runtime.Worked(r, keep));
    }
  }

  lemma OnlyWorker(r: Runtime.State, r': Runtime.State)
    requires r' == r.(worker := r'.worker)
    ensures CompletesNow(r, r')
  {}

  lemma DecidedKeeps(r: Runtime.State)
    ensures CompletesNow(r, Runtime.Decided(r))
  {
    hide Runtime.Decision;
  }

  /** A block that counts. */
  lemma CountingWork(r: Runtime.State, keep: nat)
    requires r.worker.Holding? || r.worker.Recording? || r.worker.RefusedRecord? || r.worker.Settling? ||
             r.worker.Discarding?
    ensures CompletesNow(r, Runtime.Worked(r, keep))
  {
    hide Runtime.CompleteSlot, Runtime.Decided, Runtime.Settle, Runtime.Consumed, Runtime.Halted,
         Runtime.RetireIntoLedger;
    SettleSettles(r);
  }

  lemma SettleSettles(r: Runtime.State)
    ensures Runtime.Settle(r).settled
    ensures forall o :: Runtime.RetireIntoLedger(r.ledger, o).settled == r.ledger.settled
  {}

  /** The worker's blocks other than those that retire a delivery or halt the route. */
  lemma PlainWork(r: Runtime.State, keep: nat)
    requires !r.worker.Retiring? && !r.worker.HaltingRoute?
    ensures CompletesNow(r, Runtime.Worked(r, keep))
  {
    hide Runtime.CompleteSlot, Runtime.Decided, Runtime.Settle, Runtime.Consumed, Runtime.Halted,
         Runtime.RetireIntoLedger, CompletesNow;
    if r.worker.Draining? || r.worker.CompletingAll? || r.worker.Finishing? {
      CompletingWork(r, keep);
    } else if r.worker.Holding? || r.worker.Recording? || r.worker.RefusedRecord? || r.worker.Settling? ||
              r.worker.Discarding? {
      CountingWork(r, keep);
    } else {
      DecidedKeeps(r);
    }
  }

  lemma HaltingWork(r: Runtime.State, keep: nat)
    requires r.worker.HaltingRoute?
    ensures var r' := Runtime.Worked(r, keep);
            && r'.outcomes == Runtime.Halted(r.outcomes, r.routeRetired, keep) && r'.routeStopped
            && r'.routeRetired == r.routeRetired && r'.routeError == r.routeError && r'.ledger == r.ledger
            && r'.completions == r.completions
  {
    hide Runtime.CompleteSlot, Runtime.Decided, Runtime.Settle, Runtime.Consumed, Runtime.Halted,
         Runtime.RetireIntoLedger;
  }

  lemma RetiringWork(r: Runtime.State, keep: nat)
    requires r.worker.Retiring?
    ensures var r' := Runtime.Worked(r, keep);
            && r'.outcomes == r.outcomes && r'.routeStopped == r.routeStopped && r'.routeError == r.routeError
            && r'.routeRetired == r.routeRetired + (if Runtime.CanRetire(r) then 1 else 0)
            && r'.sealed == r.sealed && r'.ledger == r.ledger && r'.completions == r.completions
  {
    hide Runtime.CompleteSlot, Runtime.Decided, Runtime.Settle, Runtime.Consumed, Runtime.Halted,
         Runtime.RetireIntoLedger;
  }

  lemma WorkAgrees(s: State)
    requires Inv(s)
    ensures Inv(Step(s, Work))
  {
    hide Runtime.Inv, Sink.Inv, Sink.BookOk, Sink.Step, Agreed, Runtime.Worked, Runtime.CanRetire;
    var keep := KeptAppend(s.sink);
    var r' := Runtime.Worked(s.runtime, keep);
    Runtime.StepInv(s.runtime, Runtime.Work(keep));
    SinkStep(s.sink, Sink.Retire(s.runtime.routeRetired));
    SinkStep(s.sink, Sink.Stop);
    if s.runtime.worker.HaltingRoute? {
      HaltingWork(s.runtime, keep);
      if !s.runtime.ledger.settled {
        StopAgrees(s.runtime, r', s.sink);
      }
    } else if s.runtime.worker.Retiring? {
      RetiringWork(s.runtime, keep);
      if !s.runtime.ledger.settled {
        RetireAgrees(s.runtime, r', s.sink);
      }
    } else {
      PlainWork(s.runtime, keep);
      if !r'.ledger.settled {
        SameRoute(s.runtime, r', s.sink);
      }
    }
  }

  lemma SameRoute(r: Runtime.State, r': Runtime.State, k: Sink.State)
    requires Agreed(r, k) && CompletesNow(r, r')
    ensures Agreed(r', k)
  {}

  /** Stopping the sink cancels what the Runtime counts as cancelled. */
  lemma StopAgrees(r: Runtime.State, r': Runtime.State, k: Sink.State)
    requires Sink.Inv(k) && Sink.BookOk(k) && Agreed(r, k)
    requires r'.outcomes == Runtime.Halted(r.outcomes, r.routeRetired, KeptAppend(k)) && r'.routeStopped
    requires r'.routeRetired == r.routeRetired && r'.routeError == r.routeError
    ensures Agreed(r', Sink.Step(k, Sink.Stop))
  {
    hide Sink.Inv, Sink.BookOk, Runtime.Halted, Sink.CancelQueued;
    CancelHalts(k, KeptAppend(k));
  }

  /** The worker finds a delivery to retire only where the sink has one. */
  lemma RetireAgrees(r: Runtime.State, r': Runtime.State, k: Sink.State)
    requires Sink.BookOk(k) && Agreed(r, k) && r.worker.Retiring?
    requires r'.outcomes == r.outcomes && r'.routeStopped == r.routeStopped && r'.routeError == r.routeError
    requires r'.routeRetired == r.routeRetired + (if Runtime.CanRetire(r) then 1 else 0) && r'.sealed == r.sealed
    ensures Agreed(r', WorkedSink(State(r, k)))
  {
    hide Sink.BookOk, Sink.CompletedAt, Sink.Step;
    if Runtime.CanRetire(r) {
      DeliveryFound(k);
      RetiredBook(k, r.routeRetired);
    }
  }

  lemma DeliveryFound(k: Sink.State)
    requires Sink.BookOk(k) && k.book.orderly && k.book.retired < |k.book.outcomes|
    requires Completed(k.book.outcomes[k.book.retired].delivery)
    ensures Sink.CompletedAt(k.slots, k.book.retired, 0) < |k.slots|
  {
    hide Sink.BookOk, Sink.CompletedAt;
    Sink.OrderlyRepresents(k);
    CompletedSlot(Sink.Entries(k.slots), k.book.outcomes, k.book.retired, k.book.retired);
    Sink.FoundEntry(k.slots, k.book.retired);
  }

  lemma RetiredBook(k: Sink.State, sequence: nat)
    requires Sink.CompletedAt(k.slots, sequence, 0) < |k.slots| && sequence == k.book.retired
    ensures var k' := Sink.Step(k, Sink.Retire(sequence));
            && k'.book == k.book.(retired := k.book.retired + 1)
            && k'.failure == k.failure && k'.stopping == k.stopping && k'.closeRequested == k.closeRequested
  {
    hide Sink.CompletedAt;
  }

  lemma StopRouteAgrees(s: State)
    requires Inv(s) && s.runtime.destroying
    ensures Inv(Step(s, StopRoute))
  {
    hide Runtime.Inv, Sink.Inv, Sink.BookOk, Sink.Step, Agreed, Runtime.Halted;
    var keep := KeptAppend(s.sink);
    Runtime.StepInv(s.runtime, Runtime.StopRoute(keep));
    SinkStep(s.sink, Sink.Stop);
    if !s.runtime.ledger.settled {
      StopAgrees(s.runtime, Runtime.Step(s.runtime, Runtime.StopRoute(keep)), s.sink);
    }
  }

  lemma StepInv(s: State, a: Action)
    requires Inv(s)
    ensures Inv(Step(s, a))
  {
    hide Inv, Sink.Step, Runtime.Step, Sink.Enabled;
    if Enabled(s, a) {
      match a
      case Own(domain) => OwnAgrees(s, domain);
      case Loop(step) => LoopAgrees(s, step);
      case Submit => SubmitAgrees(s);
      case Work => WorkAgrees(s);
      case StopRoute => StopRouteAgrees(s);
    }
  }

  lemma StartInv(s: State)
    requires Start(s)
    ensures Inv(s)
  {
    hide Runtime.Inv, Sink.Inv, Sink.BookOk;
    Runtime.StartInvariant(s.runtime);
    Sink.StartInv(s.sink);
    Sink.RunBook(s.sink, []);
  }

  lemma {:induction false} RunInv(s: State, schedule: seq<Action>)
    requires Start(s)
    ensures Inv(Run(s, schedule))
  {
    hide Inv, Start, Step;
    if schedule == [] {
      StartInv(s);
    } else {
      RunInv(s, schedule[..|schedule| - 1]);
      StepInv(Run(s, schedule[..|schedule| - 1]), schedule[|schedule| - 1]);
    }
  }

  /* --- Reports over the file --------------------------------------------------------------------------------- */

  /** In every run of the Runtime over the file sink, until the worker settles its counts, the outcomes it reports on
      are those of the sink's frames, in order, and both have retired as many. */
  lemma SinkIsTheRoute(s: State, schedule: seq<Action>)
    requires Start(s) && !Run(s, schedule).runtime.ledger.settled
    ensures var t := Run(s, schedule);
            && t.runtime.outcomes == t.sink.book.outcomes && |t.runtime.outcomes| == |t.sink.frames|
            && t.runtime.routeRetired == t.sink.book.retired && t.runtime.routeError == t.sink.failure
  {
    hide Start, Run, Runtime.Inv, Sink.Inv, Sink.BookOk;
    RunInv(s, schedule);
    FramesCounted(Run(s, schedule).sink);
  }

  /** A completion carries the outcomes of the moment it is made. */
  lemma CompletionNow(r: Runtime.State, a: Runtime.Action, id: nat)
    requires id in Runtime.Step(r, a).completions && id !in r.completions
    ensures Runtime.Step(r, a).completions[id].outcomes == r.outcomes
  {
    hide Runtime.Worked, Runtime.Started, Runtime.Consumed, Runtime.Halted;
    if a.StartAction? {
      StartedKeeps(r, a.kind, a.node);
    } else if a.Work? {
      if r.worker.HaltingRoute? {
        HaltingWork(r, a.keep);
      } else if r.worker.Retiring? {
        RetiringWork(r, a.keep);
      } else {
        PlainWork(r, a.keep);
      }
    }
  }

  /** The first `n` outcomes of a sink that has brought `done` frames to their end. */
  lemma {:induction false} DeliveredCount(k: Sink.State, n: nat)
    requires Sink.BookOk(k) && n <= |k.frames| == |k.book.outcomes| && k.done <= |k.frames|
    ensures var m := Runtime.Min(n, k.done);
            && Range(k.book.outcomes, 0, n, DeliveredRecords) == m
            && Range(k.book.outcomes, 0, n, DeliveredBytes) == |Sink.Concat(k.frames[..m])|
  {
    hide Sink.BookOk;
    if n > 0 {
      DeliveredCount(k, n - 1);
      Sink.BookDelivered(k, n - 1);
      if n <= k.done {
        assert k.frames[..n][..n - 1] == k.frames[..n - 1];
      }
    }
  }

  /** Every report made before the worker settles its counts tells the truth about the file: the records it calls
      delivered are those below its watermark whose frames the file holds whole, and the bytes it calls delivered are
      the length of the beginning of the file that those frames make up. */
  lemma ReportsCountTheFile(s: State, schedule: seq<Action>, a: Action, id: nat)
    requires Start(s) && !Run(s, schedule).runtime.ledger.settled && id !in Run(s, schedule).runtime.completions
    requires id in Step(Run(s, schedule), a).runtime.completions
    ensures var t := Run(s, schedule).sink; var r := Step(Run(s, schedule), a).runtime.completions[id].report;
            && t.done <= |t.frames|
            && var n := Runtime.Min(Runtime.Min(r.watermark, |t.frames|), t.done);
               && r.deliveredRecords == n && r.deliveredBytes == |Sink.Concat(t.frames[..n])|
               && Sink.Concat(t.frames[..n]) <= t.file
  {
    hide Start, Run, Runtime.Inv, Sink.Inv, Sink.BookOk, Step, Sink.Concat;
    RunInv(s, schedule);
    var t := Run(s, schedule);
    FramesCounted(t.sink);
    StepInv(t, a);
    ReportIsExact(t, a, id);
    var r := Step(t, a).runtime.completions[id].report;
    var m := Runtime.Min(r.watermark, |t.sink.frames|);
    FileHolds(t.sink, Runtime.Min(m, t.sink.done));
    DeliveredCount(t.sink, m);
  }

  lemma ReportIsExact(s: State, a: Action, id: nat)
    requires Inv(s) && Inv(Step(s, a)) && id !in s.runtime.completions && id in Step(s, a).runtime.completions
    ensures var c := Step(s, a).runtime.completions[id];
            c.outcomes == s.runtime.outcomes && Runtime.Exact(c.report, c.outcomes, c.refused)
  {
    hide Sink.Inv, Sink.BookOk, Sink.Step, Runtime.Step, Runtime.Exact, Agreed, Sink.Enabled, Runtime.RouteOk,
         Runtime.LedgerOk, Runtime.FlagsOk, Runtime.ActionsOk;
    var part :| Step(s, a).runtime == Runtime.Step(s.runtime, part);
    CompletionNow(s.runtime, part, id);
  }

  lemma FileHolds(k: Sink.State, n: nat)
    requires Sink.Inv(k) && n <= k.done
    ensures k.done <= |k.frames| && Sink.Concat(k.frames[..n]) <= k.file
  {
    hide Sink.SlotsOk, Sink.QueueOk, Sink.FramesOk;
    Sink.ConcatPrefix(k.frames, n, k.done);
  }
}
