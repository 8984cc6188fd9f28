/** The Runtime worker, its ledger and its control actions (src/runtime.cpp).

Every action of the machine is one block run under one lock: a user's StartAction, one iteration of a
worker loop, a route completion, and so on. The route is the sequence of outcomes of the submitted
records (see DeliveryAccounting); `routeRetired` is how many of them the route has handed back to the
worker. Deliveries complete in any order.

The kernel contributes two facts as rules of the environment: records are consumed in admission
order (ProducerKernel.ConsumedInOrder), and after IsQuiescent has answered true behind a closed admission
everything accepted has been consumed and nothing more is accepted (ProducerKernel.QuiescentAnswerHolds and
QuiescenceIsFinal). The control reserve contributes a third: a node whose operation has not completed is
neither handed out again nor recycled (ControlReserve.PendingNodeIsKept).
*/
module Runtime {
  import opened DeliveryAccounting
  import opened Options

  datatype OperationOutcome = Succeeded | Cancelled' | Failed'

  datatype Kind = Drain | Shutdown

  /** Byte and record counts of an operation. Differences are integers: that none is negative is a
      theorem. */
  datatype Report = Report(
    watermark: nat, processedRecords: nat, processedBytes: nat, deliveredRecords: nat, deliveredBytes: nat,
    failedRecords: nat, failedBytes: nat, unfinishedRecords: int, unfinishedBytes: int)

  /** A completed operation, with the deliveries as they stood when its report was built. */
  datatype Completion = Completion(
    outcome: OperationOutcome, report: Report, outcomes: seq<Outcome>, refused: Option<nat>)

  datatype ControlAction = ControlAction(active: bool, kind: Kind, watermark: nat, id: nat, node: nat)

  datatype Ledger = Ledger(
    processedRecords: nat, processedBytes: nat, retiredRecords: nat, deliveredRecords: nat, deliveredBytes: nat,
    failedRecords: nat, failedBytes: nat, encodingFailedRecords: nat, encodingFailedSequence: Option<nat>,
    settled: bool)

  /** Where the worker thread stands between two locked blocks. */
  datatype Worker =
    | Looping
    | Retiring                                 // head of the retirement loop
    | Holding(outcome: Outcome)                // the route gave up a delivery, the ledger not yet updated
    | Draining                                 // completing ready Drains
    | CheckingRoute
    | AskingShutdown | AskingQuiescent | AskingRetired | AskingClosed
    | Delivering
    | Recording(bytes: nat)                    // a record was submitted, the ledger not yet updated
    | RefusedRecord                            // a record could not be encoded
    | PreparingStop | PreparingFailure
    | HaltingRoute(verdict: OperationOutcome)
    | CompletingAll(verdict: OperationOutcome)
    | Settling
    | Discarding
    | Ending(verdict: OperationOutcome)
    | Finishing(verdict: OperationOutcome)
    | Stopped

  /** `completions` and `started` are history variables. */
  datatype State = State(
    accepted: nat, sealed: bool, admissionOpen: bool, discarded: nat,
    outcomes: seq<Outcome>, routeRetired: nat, routeStopped: bool, routeError: int,
    ledger: Ledger, actions: seq<ControlAction>, nodes: set<nat>,
    accepting: bool, shutdownRequested: bool, routeFailed: bool, destroying: bool,
    worker: Worker, started: nat, completions: map<nat, Completion>)

  datatype Action =
    | Accept                                            // a producer publishes a record
    | Complete(sequence: nat, delivered: bool)          // a delivery reaches its outcome
    | BreakRoute(sequence: nat, error: int)             // a write failure stops the route
    | StartAction(kind: Kind, node: nat)
    | RecycleNode(node: nat)
    | RequestDestruction
    | StopRoute(keep: nat)                              // the destructor stops the route
    | Work(keep: nat)                                   // the worker's next block, where it has no choice
    | Deliver(bytes: nat, delivery: Delivery)           // the worker consumes and submits a record
    | RefuseEncoding                                    // the worker consumes a record it cannot encode
    | FindNothing                                       // nothing to deliver
    | AnswerQuiescent(quiescent: bool)
    | AnswerClosed(result: Option<int>)

  /* --- Reports -------------------------------------------------------------------------------- */

  function Min(a: nat, b: nat): nat { if a < b then a else b }

  /** The route's answer to SummarizeInFlight. */
  function InFlightSummary(s: State, watermark: nat): Summary {
    var hi := Min(watermark, |s.outcomes|);
    if s.routeRetired <= hi then RangeSummary(s.outcomes, s.routeRetired, hi) else Summary(0, 0, 0, 0, 0, 0)
  }

  function BuildReport(s: State, watermark: nat): Report {
    var l := s.ledger;
    if l.settled then
      var failed := l.failedRecords + l.encodingFailedRecords;
      Report(watermark, l.processedRecords, l.processedBytes, l.deliveredRecords, l.deliveredBytes,
             failed, l.failedBytes, watermark - l.deliveredRecords - failed,
             l.processedBytes - l.deliveredBytes - l.failedBytes)
    else
      var inFlight := if l.retiredRecords < watermark then InFlightSummary(s, watermark) else Summary(0, 0, 0, 0, 0, 0);
      var refused := if l.encodingFailedSequence.Some? && l.encodingFailedSequence.value < watermark then 1 else 0;
      var delivered, failed := l.deliveredRecords + inFlight.deliveredRecords,
                               l.failedRecords + inFlight.failedRecords + refused;
      var bytes := l.deliveredBytes + l.failedBytes + inFlight.bytes;
      Report(watermark, l.retiredRecords + inFlight.records + refused, bytes,
             delivered, l.deliveredBytes + inFlight.deliveredBytes, failed, l.failedBytes + inFlight.failedBytes,
             watermark - delivered - failed,
             bytes - (l.deliveredBytes + inFlight.deliveredBytes) - (l.failedBytes + inFlight.failedBytes))
  }

  /* --- Actions ---------------------------------------------------------------------------------- */

  function ActionWatermark(s: State, action: ControlAction): nat {
    if action.kind.Drain? then action.watermark else s.accepted
  }

  /** The first action slot from `from` that satisfies the test, or the number of slots. */
  function FirstFree(actions: seq<ControlAction>, from: nat): (i: nat)
    requires from <= |actions|
    ensures from <= i <= |actions|
    ensures i < |actions| ==> !actions[i].active
    ensures forall j :: from <= j < i ==> actions[j].active
    decreases |actions| - from
  {
    if from == |actions| || !actions[from].active then from else FirstFree(actions, from + 1)
  }

  function FirstActive(actions: seq<ControlAction>, from: nat): (i: nat)
    requires from <= |actions|
    ensures from <= i <= |actions|
    ensures i < |actions| ==> actions[i].active
    ensures forall j :: from <= j < i ==> !actions[j].active
    decreases |actions| - from
  {
    if from == |actions| || actions[from].active then from else FirstActive(actions, from + 1)
  }

  predicate ReadyDrain(action: ControlAction, retired: nat) {
    action.active && action.kind.Drain? && action.watermark <= retired
  }

  function FirstReady(actions: seq<ControlAction>, retired: nat, from: nat): (i: nat)
    requires from <= |actions|
    ensures from <= i <= |actions|
    ensures i < |actions| ==> ReadyDrain(actions[i], retired)
    ensures forall j :: from <= j < i ==> !ReadyDrain(actions[j], retired)
    decreases |actions| - from
  {
    if from == |actions| || ReadyDrain(actions[from], retired) then from else FirstReady(actions, retired, from + 1)
  }

  function MakeCompletion(s: State, verdict: OperationOutcome, watermark: nat): Completion {
    Completion(verdict, BuildReport(s, watermark), s.outcomes, s.ledger.encodingFailedSequence)
  }

  /** Completes action slot `i` with a report built in the same block. */
  function CompleteSlot(s: State, i: nat, verdict: OperationOutcome): State
    requires i < |s.actions|
  {
    var action := s.actions[i];
    s.(actions := s.actions[i := action.(active := false)],
       completions := s.completions[action.id := MakeCompletion(s, verdict, ActionWatermark(s, action))])
  }

  /** Completes a started action that never occupied a slot. */
  function CompleteNow(s: State, verdict: OperationOutcome, watermark: nat): State {
    s.(completions := s.completions[s.started := MakeCompletion(s, verdict, watermark)], started := s.started + 1)
  }

  function CloseAdmission(s: State): State { s.(admissionOpen := false) }

  function Started(s: State, kind: Kind, node: nat): State {
    var s1 := s.(nodes := s.nodes + {node});
    if !s.accepting then
      CompleteNow(s1, if s.destroying then Cancelled' else if s.routeFailed then Failed' else Succeeded, s.accepted)
    else
      var s2 := if kind.Shutdown? && !s.shutdownRequested then CloseAdmission(s1.(shutdownRequested := true)) else s1;
      var i := FirstFree(s.actions, 0);
      if kind.Drain? && s.accepted == s.ledger.retiredRecords then CompleteNow(s2, Succeeded, s.accepted)
      else if i == |s.actions| then CompleteNow(s2, Failed', s.accepted)
      else s2.(actions := s2.actions[i := ControlAction(true, kind, s.accepted, s.started, node)],
               started := s.started + 1)
  }

  /** Stopping cancels every delivery in flight except one append the system may already hold. */
  function Halted(outcomes: seq<Outcome>, from: nat, keep: nat): seq<Outcome> {
    seq(|outcomes|, k requires 0 <= k < |outcomes| =>
          if from <= k && k != keep && outcomes[k].delivery.InFlight? then outcomes[k].(delivery := Cancelled)
          else outcomes[k])
  }

  function Consumed(s: State): nat {
    |s.outcomes| + s.ledger.encodingFailedRecords + (if s.worker.RefusedRecord? then 1 else 0) + s.discarded
  }

  function RetireIntoLedger(l: Ledger, o: Outcome): Ledger {
    if o.delivery.Delivered?
    then l.(retiredRecords := l.retiredRecords + 1, deliveredRecords := l.deliveredRecords + 1,
            deliveredBytes := l.deliveredBytes + o.bytes)
    else l.(retiredRecords := l.retiredRecords + 1, failedRecords := l.failedRecords + 1,
            failedBytes := l.failedBytes + o.bytes)
  }

  function Settle(s: State): Ledger {
    var r := InFlightSummary(s, |s.outcomes|);
    s.ledger.(deliveredRecords := s.ledger.deliveredRecords + r.deliveredRecords,
              deliveredBytes := s.ledger.deliveredBytes + r.deliveredBytes,
              failedRecords := s.ledger.failedRecords + r.failedRecords,
              failedBytes := s.ledger.failedBytes + r.failedBytes, settled := true)
  }

  /** A processed record is unretired and the route has its outcome. */
  predicate CanRetire(s: State) {
    && s.ledger.retiredRecords < s.ledger.processedRecords && s.routeRetired < |s.outcomes|
    && Completed(s.outcomes[s.routeRetired].delivery)
  }

  /** Where the worker only takes a decision. */
  predicate Deciding(w: Worker) {
    || w.Looping? || w.CheckingRoute? || w.AskingShutdown? || w.AskingRetired? || w.PreparingStop?
    || w.PreparingFailure? || w.Ending?
  }

  /** And where the decision takes it. */
  function Decision(s: State): Worker {
    match s.worker
    case Looping => if s.destroying then PreparingStop else Retiring
    case CheckingRoute => if s.routeError != 0 then PreparingFailure else AskingShutdown
    case AskingShutdown => if s.shutdownRequested then AskingQuiescent else Delivering
    case AskingRetired => if s.ledger.retiredRecords == s.accepted then AskingClosed else Delivering
    case PreparingStop => HaltingRoute(Cancelled')
    case PreparingFailure => HaltingRoute(Failed')
    case Ending(verdict) => Finishing(verdict)
    case w => w
  }

  /** A route failure is noted, and the worker closes admission before it halts the route. */
  function Decided(s: State): State {
    var w := s.worker;
    var closes := w.PreparingStop? || w.PreparingFailure?;
    s.(worker := Decision(s), accepting := s.accepting && !closes && !w.Ending?,
       admissionOpen := s.admissionOpen && !closes,
       routeFailed := s.routeFailed || w.PreparingFailure? || (w.CheckingRoute? && s.routeError != 0))
  }

  /** One locked block of the worker where it has no choice; `keep` is the append a stop may leave. */
  function Worked(s: State, keep: nat): State {
    match s.worker
    case Retiring =>
      var ready := CanRetire(s);
      s.(worker := if ready then Holding(s.outcomes[s.routeRetired]) else CheckingRoute,
         routeRetired := if ready then s.routeRetired + 1 else s.routeRetired)
    case Holding(o) =>
      s.(ledger := RetireIntoLedger(s.ledger, o),
         worker := if o.delivery.Failed? && s.routeError != 0 then CheckingRoute else Draining)
    case Draining =>
      var i := FirstReady(s.actions, s.ledger.retiredRecords, 0);
      if i < |s.actions| then CompleteSlot(s, i, Succeeded) else s.(worker := Retiring)
    case Recording(bytes) =>
      s.(ledger := s.ledger.(processedRecords := s.ledger.processedRecords + 1,
                             processedBytes := s.ledger.processedBytes + bytes),
         worker := Looping)
    case RefusedRecord =>
      s.(ledger := s.ledger.(processedRecords := s.ledger.processedRecords + 1,
                             encodingFailedRecords := s.ledger.encodingFailedRecords + 1,
                             encodingFailedSequence := Some(|s.outcomes|)),
         worker := PreparingFailure)
    case HaltingRoute(verdict) =>
      s.(routeStopped := true, outcomes := Halted(s.outcomes, s.routeRetired, keep), worker := CompletingAll(verdict))
    case CompletingAll(verdict) =>
      var i := FirstActive(s.actions, 0);
      if i < |s.actions| then CompleteSlot(s, i, verdict) else s.(worker := Settling)
    case Settling => s.(ledger := Settle(s), worker := Discarding)
    case Discarding =>
      var left := Consumed(s) < s.accepted;
      s.(discarded := if left then s.discarded + 1 else s.discarded, worker := if left then Discarding else Stopped)
    case Finishing(verdict) =>
      var i := FirstActive(s.actions, 0);
      if i < |s.actions| then CompleteSlot(s, i, verdict) else s.(worker := Stopped)
    case _ => Decided(s)
  }

  /** How a submission may settle at once: a stopped or broken route only cancels. */
  predicate SubmissionAllowed(s: State, delivery: Delivery) {
    if s.routeStopped || s.routeError != 0 then delivery.Cancelled?
    else delivery.InFlight? || delivery.Delivered? || delivery.Failed?
  }

  predicate Enabled(s: State, a: Action) {
    match a
    case Accept => !s.sealed
    case Complete(k, _) =>
      !s.ledger.settled && s.routeRetired <= k < |s.outcomes| && s.outcomes[k].delivery.InFlight?
    case BreakRoute(k, error) =>
      && !s.ledger.settled && error != 0 && s.routeError == 0
      && s.routeRetired <= k < |s.outcomes| && s.outcomes[k].delivery.InFlight?
    case StartAction(_, node) => node < |s.actions| && node !in s.nodes
    case RecycleNode(node) =>
      node in s.nodes && forall i :: 0 <= i < |s.actions| && s.actions[i].active ==> s.actions[i].node != node
    case RequestDestruction => true
    case StopRoute(_) => s.destroying && !s.ledger.settled
    case Work(_) => true
    case Deliver(_, delivery) =>
      s.worker.Delivering? && Consumed(s) < s.accepted && SubmissionAllowed(s, delivery)
    case RefuseEncoding => s.worker.Delivering? && Consumed(s) < s.accepted
    case FindNothing => s.worker.Delivering?
    case AnswerQuiescent(quiescent) =>
      s.worker.AskingQuiescent? && (quiescent ==> !s.admissionOpen && Consumed(s) == s.accepted)
    case AnswerClosed(_) => s.worker.AskingClosed?
  }

  function Step(s: State, a: Action): State {
    if !Enabled(s, a) then s else
    match a
    case Accept => s.(accepted := s.accepted + 1)
    case Complete(k, delivered) =>
      s.(outcomes := s.outcomes[k := s.outcomes[k].(delivery := if delivered then Delivered else Failed)])
    case BreakRoute(k, error) =>
      s.(routeError := error,
         outcomes := Halted(s.outcomes, s.routeRetired, k)[k := s.outcomes[k].(delivery := Failed)])
    case StartAction(kind, node) => Started(s, kind, node)
    case RecycleNode(node) => s.(nodes := s.nodes - {node})
    case RequestDestruction => CloseAdmission(s.(destroying := true))
    case StopRoute(keep) => s.(routeStopped := true, outcomes := Halted(s.outcomes, s.routeRetired, keep))
    case Work(keep) => Worked(s, keep)
    case Deliver(bytes, delivery) =>
      s.(outcomes := s.outcomes + [Outcome(delivery, bytes)], worker := Recording(bytes))
    case RefuseEncoding => s.(worker := RefusedRecord)
    case FindNothing => s.(worker := Looping)
    case AnswerQuiescent(quiescent) =>
      s.(sealed := s.sealed || quiescent, worker := if quiescent then AskingRetired else Delivering)
    case AnswerClosed(result) =>
      s.(routeFailed := s.routeFailed || (result.Some? && result.value != 0),
         worker := if result.None? then Delivering
                   else if result.value != 0 then Ending(Failed')
                   else Ending(Succeeded))
  }

  function Run(s: State, schedule: seq<Action>): State {
    if schedule == [] then s
    else Step(Run(s, schedule[..|schedule| - 1]), schedule[|schedule| - 1])
  }

  /* --- The invariant ----------------------------------------------------------------------------- */

  /** The ledger's totals are those of the first `n` sequences. */
  predicate Totals(l: Ledger, outcomes: seq<Outcome>, n: nat) {
    && n <= |outcomes|
    && l.deliveredRecords == Range(outcomes, 0, n, DeliveredRecords)
    && l.deliveredBytes == Range(outcomes, 0, n, DeliveredBytes)
    && l.failedRecords == Range(outcomes, 0, n, FailedRecords)
    && l.failedBytes == Range(outcomes, 0, n, FailedBytes)
  }

  function Refused(refused: Option<nat>, watermark: nat): nat {
    if refused.Some? && refused.value < watermark then 1 else 0
  }

  /** A report counts exactly the sequences below its watermark. */
  predicate Exact(r: Report, outcomes: seq<Outcome>, refused: Option<nat>) {
    var hi := Min(r.watermark, |outcomes|);
    && r.processedRecords == hi + Refused(refused, r.watermark)
    && r.processedBytes == Range(outcomes, 0, hi, Bytes)
    && r.deliveredRecords == Range(outcomes, 0, hi, DeliveredRecords)
    && r.deliveredBytes == Range(outcomes, 0, hi, DeliveredBytes)
    && r.failedRecords == Range(outcomes, 0, hi, FailedRecords) + Refused(refused, r.watermark)
    && r.failedBytes == Range(outcomes, 0, hi, FailedBytes)
    && r.unfinishedRecords == r.watermark - r.deliveredRecords - r.failedRecords
    && r.unfinishedBytes == r.processedBytes - r.deliveredBytes - r.failedBytes
  }

  predicate AllCompleted(outcomes: seq<Outcome>, n: nat) {
    n <= |outcomes| && forall k :: 0 <= k < n ==> Completed(outcomes[k].delivery)
  }

  predicate CompletionOk(c: Completion) {
    && Exact(c.report, c.outcomes, c.refused)
    && (c.refused.Some? ==> c.refused.value == |c.outcomes|)
    && (c.outcome.Succeeded? ==> AllCompleted(c.outcomes, c.report.watermark))
  }

  predicate FailureWorker(w: Worker) {
    w.PreparingFailure? || w.HaltingRoute? || w.CompletingAll? || w.Settling? || w.Discarding? || w.Stopped?
  }

  /** The worker has stopped taking actions. */
  predicate ClosedWorker(w: Worker) {
    w.HaltingRoute? || w.CompletingAll? || w.Settling? || w.Discarding? || w.Finishing? || w.Stopped?
  }

  predicate RouteOk(s: State) {
    && (forall k :: 0 <= k < |s.outcomes| ==> !s.outcomes[k].delivery.Retired?)
    && AllCompleted(s.outcomes, s.routeRetired)
    && s.routeRetired == s.ledger.retiredRecords + (if s.worker.Holding? then 1 else 0)
    && (s.worker.Holding? ==>
          s.ledger.retiredRecords < |s.outcomes| && s.outcomes[s.ledger.retiredRecords] == s.worker.outcome)
  }

  predicate LedgerOk(s: State) {
    && Totals(s.ledger, s.outcomes, if s.ledger.settled then |s.outcomes| else s.ledger.retiredRecords)
    && s.ledger.processedRecords + (if s.worker.Recording? then 1 else 0) ==
       |s.outcomes| + s.ledger.encodingFailedRecords
    && s.ledger.processedBytes + (if s.worker.Recording? then s.worker.bytes else 0) ==
       Range(s.outcomes, 0, |s.outcomes|, Bytes)
    && s.ledger.encodingFailedRecords == (if s.ledger.encodingFailedSequence.Some? then 1 else 0)
    && (s.ledger.encodingFailedSequence.Some? ==>
          s.ledger.encodingFailedSequence.value == |s.outcomes| && FailureWorker(s.worker))
    && Consumed(s) <= s.accepted
  }

  predicate FlagsOk(s: State) {
    && (s.accepting <==> !ClosedWorker(s.worker))
    && (s.ledger.settled ==> s.worker.Discarding? || s.worker.Stopped?)
    && (s.worker.Discarding? ==> s.ledger.settled)
    && (s.worker.PreparingStop? ==> s.destroying)
    && (s.sealed ==> Consumed(s) == s.accepted)
    && (s.worker.AskingRetired? || s.worker.AskingClosed? ==> s.sealed)
    && (s.worker.AskingClosed? || SucceedingWorker(s) ==> s.ledger.retiredRecords == s.accepted && s.sealed)
    && (s.worker.HaltingRoute? || s.worker.CompletingAll? || s.worker.Settling? || s.ledger.settled ==>
          s.destroying || s.routeFailed)
    && (s.worker.HaltingRoute? || s.worker.CompletingAll? ==> !s.worker.verdict.Succeeded?)
    && (s.worker.Ending? || s.worker.Finishing? ==> s.worker.verdict.Succeeded? || s.routeFailed)
  }

  /** The worker is on its way out, or gone, after a shutdown that succeeded. */
  predicate SucceedingWorker(s: State) {
    || (s.worker.Ending? && s.worker.verdict.Succeeded?)
    || (s.worker.Finishing? && s.worker.verdict.Succeeded?)
    || (!s.accepting && !s.destroying && !s.routeFailed)
  }

  /** Away from the drain loop and the failure path every pending Drain is still short of its watermark. */
  predicate Strict(s: State) {
    match s.worker
    case Draining => false
    case CheckingRoute => s.routeError == 0
    case PreparingFailure | HaltingRoute(_) | CompletingAll(_) | Settling | Discarding | Finishing(_) | Stopped => false
    case _ => true
  }

  predicate PendingOk(s: State, a: ControlAction) {
    && a.id < s.started && a.id !in s.completions && a.node in s.nodes && a.node < |s.actions|
    && a.watermark <= s.accepted
    && (a.kind.Drain? ==> s.ledger.retiredRecords <= a.watermark)
    && (a.kind.Drain? && Strict(s) ==> s.ledger.retiredRecords < a.watermark)
    && !s.worker.Settling? && !s.worker.Discarding? && !s.worker.Stopped?
  }

  predicate ActionsOk(s: State) {
    && (forall i :: 0 <= i < |s.actions| && s.actions[i].active ==> PendingOk(s, s.actions[i]))
    && (forall i, j :: 0 <= i < j < |s.actions| && s.actions[i].active && s.actions[j].active ==>
          s.actions[i].id != s.actions[j].id && s.actions[i].node != s.actions[j].node)
  }

  predicate Pending(s: State, id: nat) {
    exists i :: 0 <= i < |s.actions| && s.actions[i].active && s.actions[i].id == id
  }

  predicate HistoryOk(s: State) {
    && (forall id :: id in s.completions ==> id < s.started && CompletionOk(s.completions[id]))
    && (forall id :: 0 <= id < s.started ==> id in s.completions || Pending(s, id))
  }

  predicate Inv(s: State) {
    RouteOk(s) && LedgerOk(s) && FlagsOk(s) && ActionsOk(s) && HistoryOk(s)
  }

  /* --- Ledger and reports ------------------------------------------------------------------------ */

  lemma TotalsFrame(l: Ledger, a: seq<Outcome>, b: seq<Outcome>, n: nat)
    requires Totals(l, a, n) && n <= |b|
    requires forall k :: 0 <= k < n ==> a[k] == b[k]
    ensures Totals(l, b, n)
  {
    RangeFrame(a, b, 0, n, DeliveredRecords);
    RangeFrame(a, b, 0, n, DeliveredBytes);
    RangeFrame(a, b, 0, n, FailedRecords);
    RangeFrame(a, b, 0, n, FailedBytes);
  }

  /** The bytes of a sequence do not depend on what becomes of it. */
  lemma {:induction false} BytesFrame(a: seq<Outcome>, b: seq<Outcome>, n: nat)
    requires n <= |a| && n <= |b|
    requires forall k :: 0 <= k < n ==>
               a[k].bytes == b[k].bytes && !a[k].delivery.Retired? && !b[k].delivery.Retired?
    ensures Range(a, 0, n, Bytes) == Range(b, 0, n, Bytes)
    decreases n
  {
    if n > 0 {
      BytesFrame(a, b, n - 1);
    }
  }

  lemma {:induction false} RecordsCount(outcomes: seq<Outcome>, lo: nat, hi: nat)
    requires lo <= hi <= |outcomes|
    requires forall k :: 0 <= k < |outcomes| ==> !outcomes[k].delivery.Retired?
    ensures Range(outcomes, lo, hi, Records) == hi - lo
    decreases hi
  {
    if lo < hi {
      RecordsCount(outcomes, lo, hi - 1);
    }
  }

  lemma RetireTotals(l: Ledger, outcomes: seq<Outcome>)
    requires Totals(l, outcomes, l.retiredRecords) && l.retiredRecords < |outcomes|
    requires Completed(outcomes[l.retiredRecords].delivery)
    ensures Totals(RetireIntoLedger(l, outcomes[l.retiredRecords]), outcomes, l.retiredRecords + 1)
  {}

  /** Folding the unretired sequences into the ledger accounts for every submitted one. */
  lemma SettleTotals(s: State)
    requires RouteOk(s) && LedgerOk(s) && !s.ledger.settled && !s.worker.Holding?
    ensures Totals(Settle(s), s.outcomes, |s.outcomes|)
  {
    var n := s.ledger.retiredRecords;
    RangeSplit(s.outcomes, 0, n, |s.outcomes|, DeliveredRecords);
    RangeSplit(s.outcomes, 0, n, |s.outcomes|, DeliveredBytes);
    RangeSplit(s.outcomes, 0, n, |s.outcomes|, FailedRecords);
    RangeSplit(s.outcomes, 0, n, |s.outcomes|, FailedBytes);
  }

  /** At the watermark itself the ledger alone is exact, even while a retirement is under way. */
  lemma RetiredReportExact(s: State)
    requires RouteOk(s) && LedgerOk(s) && !s.ledger.settled
    ensures Exact(BuildReport(s, s.ledger.retiredRecords), s.outcomes, s.ledger.encodingFailedSequence)
    ensures AllCompleted(s.outcomes, s.ledger.retiredRecords)
  {
    RangeTerminal(s.outcomes, 0, s.ledger.retiredRecords);
  }

  /** The ledger and the route's summary together count every sequence below the watermark once. */
  lemma OpenReportExact(s: State, w: nat)
    requires RouteOk(s) && LedgerOk(s) && !s.ledger.settled && !s.worker.Holding?
    requires s.ledger.retiredRecords < w
    ensures Exact(BuildReport(s, w), s.outcomes, s.ledger.encodingFailedSequence)
  {
    var n, hi := s.ledger.retiredRecords, Min(w, |s.outcomes|);
    RangeSplit(s.outcomes, 0, n, hi, DeliveredRecords);
    RangeSplit(s.outcomes, 0, n, hi, DeliveredBytes);
    RangeSplit(s.outcomes, 0, n, hi, FailedRecords);
    RangeSplit(s.outcomes, 0, n, hi, FailedBytes);
    RangeSplit(s.outcomes, 0, n, hi, Bytes);
    RangeTerminal(s.outcomes, 0, n);
    RecordsCount(s.outcomes, n, hi);
  }

  lemma SettledReportExact(s: State)
    requires RouteOk(s) && LedgerOk(s) && s.ledger.settled && !s.worker.Recording?
    ensures Exact(BuildReport(s, s.accepted), s.outcomes, s.ledger.encodingFailedSequence)
  {
    var n := |s.outcomes|;
    assert n + s.ledger.encodingFailedRecords <= s.accepted;
  }

  /** Every report the code builds is exact. */
  lemma ReportExact(s: State, w: nat)
    requires RouteOk(s) && LedgerOk(s) && FlagsOk(s)
    requires s.ledger.settled ==> w == s.accepted
    requires s.ledger.retiredRecords <= w
    requires w == s.ledger.retiredRecords || !s.worker.Holding?
    ensures Exact(BuildReport(s, w), s.outcomes, s.ledger.encodingFailedSequence)
  {
    hide BuildReport, Exact, RouteOk, LedgerOk;
    if s.ledger.settled {
      SettledReportExact(s);
    } else if w == s.ledger.retiredRecords {
      RetiredReportExact(s);
    } else {
      OpenReportExact(s, w);
    }
  }

  /** What an exact report says: every sequence below the watermark is counted exactly once. */
  lemma ExactReportBalances(r: Report, outcomes: seq<Outcome>, refused: Option<nat>)
    requires Exact(r, outcomes, refused) && (refused.Some? ==> refused.value == |outcomes|)
    ensures r.unfinishedRecords >= 0 && r.unfinishedBytes >= 0
    ensures r.deliveredRecords + r.failedRecords + r.unfinishedRecords == r.watermark
    ensures r.deliveredBytes + r.failedBytes + r.unfinishedBytes == r.processedBytes
    ensures r.deliveredRecords + r.failedRecords <= r.processedRecords <= r.watermark
    ensures AllCompleted(outcomes, r.watermark) ==>
              r.unfinishedRecords == 0 && r.unfinishedBytes == 0 && r.processedRecords == r.watermark
  {
    var hi := Min(r.watermark, |outcomes|);
    RangeBounds(outcomes, 0, hi);
    if AllCompleted(outcomes, r.watermark) {
      RangeTerminal(outcomes, 0, hi);
    }
  }

  /* --- What every step keeps ------------------------------------------------------------------------- */

  /** Later deliveries: sequences keep their bytes, and a terminal outcome is never revised. */
  predicate Grown(a: seq<Outcome>, b: seq<Outcome>) {
    && |a| <= |b|
    && forall k :: 0 <= k < |a| ==> a[k].bytes == b[k].bytes && (Completed(a[k].delivery) ==> b[k] == a[k])
  }

  /** Completions are only added, each with the deliveries of that moment. */
  predicate Recorded(s: State, s': State) {
    && (forall id :: id in s.completions ==> id in s'.completions && s'.completions[id] == s.completions[id])
    && (forall id :: id in s'.completions && id !in s.completions ==> s'.completions[id].outcomes == s.outcomes)
  }

  predicate Kept(s: State, s': State) {
    Grown(s.outcomes, s'.outcomes) && Recorded(s, s')
  }

  lemma KeptAfter(s: State, s1: State, s2: State)
    requires s1.outcomes == s.outcomes && s1.completions == s.completions && Kept(s1, s2)
    ensures Kept(s, s2)
  {}

  lemma KeptQuietly(s: State, s': State)
    requires Grown(s.outcomes, s'.outcomes) && s'.completions == s.completions
    ensures Kept(s, s')
  {}

  /* --- Steps that leave the actions alone ---------------------------------------------------------- */

  predicate SameActions(s: State, s': State) {
    && s'.actions == s.actions && s'.started == s.started && s'.completions == s.completions && s'.nodes == s.nodes
    && s.accepted <= s'.accepted && s'.ledger.retiredRecords == s.ledger.retiredRecords
  }

  lemma ActionsFrame(s: State, s': State)
    requires ActionsOk(s) && HistoryOk(s) && SameActions(s, s') && (Strict(s') ==> Strict(s))
    requires (s'.worker.Settling? || s'.worker.Discarding? || s'.worker.Stopped?) ==>
               s.worker.Settling? || s.worker.Discarding? || s.worker.Stopped? ||
               forall i :: 0 <= i < |s.actions| ==> !s.actions[i].active
    ensures ActionsOk(s') && HistoryOk(s')
  {
    hide CompletionOk, Strict;
    forall i | 0 <= i < |s'.actions| && s'.actions[i].active
      ensures PendingOk(s', s'.actions[i])
    {
      assert PendingOk(s, s.actions[i]);
    }
    forall id | 0 <= id < s'.started
      ensures id in s'.completions || Pending(s', id)
    {
      if id !in s.completions {
        assert Pending(s, id);
        var i :| 0 <= i < |s.actions| && s.actions[i].active && s.actions[i].id == id;
        assert s'.actions[i].id == id;
      }
    }
  }

  /** Deliveries still in flight reach another state; their bytes and the retired sequences stay. */
  predicate Redelivered(s: State, outcomes: seq<Outcome>) {
    && |outcomes| == |s.outcomes|
    && (forall k :: 0 <= k < |outcomes| ==> outcomes[k].bytes == s.outcomes[k].bytes && !outcomes[k].delivery.Retired?)
    && (forall k :: 0 <= k < s.routeRetired && k < |outcomes| ==> outcomes[k] == s.outcomes[k])
  }

  lemma RedeliverInv(s: State, outcomes: seq<Outcome>)
    requires RouteOk(s) && LedgerOk(s) && !s.ledger.settled && Redelivered(s, outcomes)
    ensures RouteOk(s.(outcomes := outcomes)) && LedgerOk(s.(outcomes := outcomes))
  {
    TotalsFrame(s.ledger, s.outcomes, outcomes, s.ledger.retiredRecords);
    BytesFrame(s.outcomes, outcomes, |outcomes|);
  }

  lemma HaltedRedelivers(s: State, keep: nat)
    requires RouteOk(s)
    ensures Redelivered(s, Halted(s.outcomes, s.routeRetired, keep))
  {}

  /** The two states differ at most in deliveries, in requests from outside and in newly accepted records. */
  predicate SameAccounting(s: State, s': State) {
    && s'.routeRetired == s.routeRetired && s'.ledger == s.ledger
    && s'.worker == s.worker && s'.discarded == s.discarded && s.accepted <= s'.accepted
    && s'.sealed == s.sealed && (s.sealed ==> s'.accepted == s.accepted)
    && s'.accepting == s.accepting && (s.destroying ==> s'.destroying) && (s.routeFailed ==> s'.routeFailed)
  }

  lemma AccountingFrame(s: State, s': State)
    requires RouteOk(s) && LedgerOk(s) && FlagsOk(s) && SameAccounting(s, s') && s'.outcomes == s.outcomes
    ensures RouteOk(s') && LedgerOk(s') && FlagsOk(s')
  {
    hide Totals, AllCompleted;
  }

  lemma FlagsRedelivered(s: State, outcomes: seq<Outcome>)
    requires FlagsOk(s) && |outcomes| == |s.outcomes|
    ensures FlagsOk(s.(outcomes := outcomes))
  {}

  /** The steps of producers, routes and the destructor. */
  predicate Environment(a: Action) {
    a.Accept? || a.Complete? || a.BreakRoute? || a.RequestDestruction? || a.StopRoute?
  }

  lemma EnvironmentEffect(s: State, a: Action)
    requires RouteOk(s) && Enabled(s, a) && Environment(a)
    ensures Redelivered(s, Step(s, a).outcomes)
    ensures s.ledger.settled ==> Step(s, a).outcomes == s.outcomes
    ensures Grown(s.outcomes, Step(s, a).outcomes)
  {
    hide Worked, Started;
    HaltedRedelivers(s, if a.BreakRoute? then a.sequence else if a.StopRoute? then a.keep else 0);
  }

  lemma EnvironmentFlags(s: State, a: Action)
    requires Enabled(s, a) && Environment(a)
    ensures SameAccounting(s, Step(s, a)) && SameActions(s, Step(s, a)) && (Strict(Step(s, a)) ==> Strict(s))
    ensures Step(s, a).completions == s.completions
  {
    hide Worked, Started, Halted;
  }

  lemma EnvironmentInv(s: State, a: Action)
    requires Inv(s) && Enabled(s, a) && Environment(a)
    ensures Inv(Step(s, a)) && Kept(s, Step(s, a))
  {
    hide Worked, Started, Halted, Enabled, RouteOk, LedgerOk, FlagsOk, ActionsOk, HistoryOk, SameActions, Step, Kept,
         Grown;
    EnvironmentEffect(s, a);
    EnvironmentFlags(s, a);
    var s', s1 := Step(s, a), s.(outcomes := Step(s, a).outcomes);
    if s1.outcomes != s.outcomes {
      RedeliverInv(s, s1.outcomes);
    }
    FlagsRedelivered(s, s1.outcomes);
    AccountingFrame(s1, s');
    ActionsFrame(s, s');
    KeptQuietly(s, s');
  }

  /* --- Completing actions -------------------------------------------------------------------------- */

  lemma CompletionExact(s: State, verdict: OperationOutcome, w: nat)
    requires RouteOk(s) && LedgerOk(s) && FlagsOk(s)
    requires s.ledger.settled ==> w == s.accepted
    requires s.ledger.retiredRecords <= w
    requires w == s.ledger.retiredRecords || !s.worker.Holding?
    requires verdict.Succeeded? ==> w == s.ledger.retiredRecords && !s.ledger.settled
    ensures CompletionOk(MakeCompletion(s, verdict, w))
  {
    assert s.ledger.encodingFailedSequence.Some? ==> s.ledger.encodingFailedSequence.value == |s.outcomes|;
    hide Exact, LedgerOk;
    ReportExact(s, w);
    assert BuildReport(s, w).watermark == w;
  }

  lemma CompleteSlotInv(s: State, i: nat, verdict: OperationOutcome)
    requires Inv(s) && i < |s.actions| && s.actions[i].active && !s.worker.Holding?
    requires verdict.Succeeded? ==> ActionWatermark(s, s.actions[i]) == s.ledger.retiredRecords && !s.ledger.settled
    ensures Inv(CompleteSlot(s, i, verdict)) && Kept(s, CompleteSlot(s, i, verdict))
  {
    var s', a := CompleteSlot(s, i, verdict), s.actions[i];
    assert PendingOk(s, a);
    assert s.ledger.retiredRecords <= s.accepted;
    assert !s.ledger.settled;
    CompletionExact(s, verdict, ActionWatermark(s, a));
    hide CompletionOk, RouteOk, LedgerOk, FlagsOk, MakeCompletion, Strict;
    AccountingFrame(s, s');
    forall j | 0 <= j < |s'.actions| && s'.actions[j].active
      ensures PendingOk(s', s'.actions[j])
    {
      assert PendingOk(s, s.actions[j]);
      StrictFrame(s, s');
    }
    forall id | 0 <= id < s'.started
      ensures id in s'.completions || Pending(s', id)
    {
      if id !in s.completions && id != a.id {
        assert Pending(s, id);
        var j :| 0 <= j < |s.actions| && s.actions[j].active && s.actions[j].id == id;
        assert s'.actions[j] == s.actions[j];
      }
    }
  }

  lemma StrictFrame(s: State, s': State)
    requires s'.worker == s.worker && s'.routeError == s.routeError
    ensures Strict(s') == Strict(s)
  {}

  /** An action that never occupied a slot completes at once. */
  lemma CompleteNowInv(s: State, verdict: OperationOutcome, w: nat)
    requires Inv(s) && CompletionOk(MakeCompletion(s, verdict, w))
    ensures Inv(CompleteNow(s, verdict, w)) && Kept(s, CompleteNow(s, verdict, w))
  {
    var s' := CompleteNow(s, verdict, w);
    assert MakeCompletion(s, verdict, w).outcomes == s.outcomes;
    hide CompletionOk, RouteOk, LedgerOk, FlagsOk, MakeCompletion, Strict;
    AccountingFrame(s, s');
    StrictFrame(s, s');
    forall j | 0 <= j < |s'.actions| && s'.actions[j].active
      ensures PendingOk(s', s'.actions[j])
    {
      assert PendingOk(s, s.actions[j]);
    }
    forall id | 0 <= id < s'.started
      ensures id in s'.completions || Pending(s', id)
    {
      if id !in s.completions && id != s.started {
        assert Pending(s, id);
        var j :| 0 <= j < |s.actions| && s.actions[j].active && s.actions[j].id == id;
        assert s'.actions[j] == s.actions[j];
      }
    }
  }

  /** A started action takes a free slot. */
  lemma RegisterInv(s: State, i: nat, kind: Kind, node: nat)
    requires Inv(s) && i < |s.actions| && !s.actions[i].active && s.accepting
    requires node < |s.actions| && node in s.nodes
    requires forall j :: 0 <= j < |s.actions| && s.actions[j].active ==> s.actions[j].node != node
    requires kind.Drain? ==> s.ledger.retiredRecords < s.accepted
    ensures var s' := s.(actions := s.actions[i := ControlAction(true, kind, s.accepted, s.started, node)],
                         started := s.started + 1);
            Inv(s') && Kept(s, s')
  {
    var s' := s.(actions := s.actions[i := ControlAction(true, kind, s.accepted, s.started, node)],
                 started := s.started + 1);
    assert !s.worker.Settling? && !s.worker.Discarding? && !s.worker.Stopped?;
    hide CompletionOk, RouteOk, LedgerOk, FlagsOk, Strict;
    AccountingFrame(s, s');
    StrictFrame(s, s');
    forall j | 0 <= j < |s'.actions| && s'.actions[j].active
      ensures PendingOk(s', s'.actions[j])
    {
      if j != i {
        assert PendingOk(s, s.actions[j]);
      }
    }
    forall id | 0 <= id < s'.started
      ensures id in s'.completions || Pending(s', id)
    {
      if id == s.started {
        assert s'.actions[i].id == id;
      } else if id !in s.completions {
        assert Pending(s, id);
        var j :| 0 <= j < |s.actions| && s.actions[j].active && s.actions[j].id == id;
        assert s'.actions[j] == s.actions[j];
      }
    }
  }

  /* --- A free action slot always exists -------------------------------------------------------------- */

  /** The nodes held by the first `n` slots. */
  function HeldNodes(actions: seq<ControlAction>, n: nat): set<nat>
    requires n <= |actions|
  {
    if n == 0 then {} else HeldNodes(actions, n - 1) + {actions[n - 1].node}
  }

  lemma {:induction false} HeldNodesCount(actions: seq<ControlAction>, n: nat, within: set<nat>)
    requires n <= |actions|
    requires forall i, j :: 0 <= i < j < |actions| ==> actions[i].node != actions[j].node
    requires forall i :: 0 <= i < |actions| ==> actions[i].node in within
    ensures |HeldNodes(actions, n)| == n && HeldNodes(actions, n) <= within
    ensures forall i :: n <= i < |actions| ==> actions[i].node !in HeldNodes(actions, n)
  {
    if n > 0 {
      HeldNodesCount(actions, n - 1, within);
    }
  }

  function Below(n: nat): (r: set<nat>)
    ensures forall k :: k in r <==> 0 <= k < n
    ensures |r| == n
  {
    if n == 0 then {} else Below(n - 1) + {n - 1}
  }

  lemma SubsetCount(a: set<nat>, b: set<nat>)
    requires a <= b
    ensures |a| <= |b|
  {
    assert b == a + (b - a);
  }

  /** Each pending action holds its own control node, so a caller holding a fresh node finds a slot:
      the branch that fails a Drain or Shutdown for want of one is never taken. */
  lemma FreeSlotExists(s: State, node: nat)
    requires Inv(s) && node < |s.actions| && node !in s.nodes
    ensures FirstFree(s.actions, 0) < |s.actions|
  {
    hide RouteOk, LedgerOk, FlagsOk, HistoryOk, PendingOk;
    var n := |s.actions|;
    if FirstFree(s.actions, 0) == n {
      forall i | 0 <= i < n
        ensures s.actions[i].node in Below(n) - {node}
      {
        PendingNode(s, i);
      }
      HeldNodesCount(s.actions, n, Below(n) - {node});
      SubsetCount(HeldNodes(s.actions, n), Below(n) - {node});
      assert false;
    }
  }

  lemma PendingNode(s: State, i: nat)
    requires ActionsOk(s) && i < |s.actions| && s.actions[i].active
    ensures s.actions[i].node in s.nodes && s.actions[i].node < |s.actions|
  {
    assert PendingOk(s, s.actions[i]);
  }

  /* --- Starting an action ----------------------------------------------------------------------------- */

  /** TryStart hands out a node nobody holds, and a first Shutdown closes admission. */
  lemma ClaimInv(s: State, s': State)
    requires Inv(s) && SameAccounting(s, s') && s'.outcomes == s.outcomes && s'.routeError == s.routeError
    requires s'.actions == s.actions && s'.started == s.started && s'.completions == s.completions
    requires forall i :: 0 <= i < |s.actions| && s.actions[i].active ==> s.actions[i].node in s'.nodes
    ensures Inv(s') && Kept(s, s')
  {
    hide CompletionOk, RouteOk, LedgerOk, FlagsOk, Strict;
    AccountingFrame(s, s');
    StrictFrame(s, s');
    forall j | 0 <= j < |s'.actions| && s'.actions[j].active
      ensures PendingOk(s', s'.actions[j])
    {
      assert PendingOk(s, s.actions[j]);
    }
    forall id | 0 <= id < s'.started
      ensures id in s'.completions || Pending(s', id)
    {
      if id !in s.completions {
        assert Pending(s, id);
        var j :| 0 <= j < |s.actions| && s.actions[j].active && s.actions[j].id == id;
        assert s'.actions[j] == s.actions[j];
      }
    }
  }

  lemma StartClosedInv(s: State, kind: Kind, node: nat)
    requires Inv(s) && node < |s.actions| && node !in s.nodes && !s.accepting
    ensures Inv(Started(s, kind, node)) && Kept(s, Started(s, kind, node))
  {
    hide CompletionOk, RouteOk, HistoryOk, ActionsOk, MakeCompletion, CompleteNow, Kept;
    var s1 := s.(nodes := s.nodes + {node});
    var verdict := if s.destroying then Cancelled' else if s.routeFailed then Failed' else Succeeded;
    assert Inv(s1) by {
      hide LedgerOk, FlagsOk;
      forall i | 0 <= i < |s.actions| && s.actions[i].active
        ensures s.actions[i].node in s1.nodes
      {
        PendingNode(s, i);
      }
      ClaimInv(s, s1);
    }
    RetiredWithinAccepted(s1);
    hide LedgerOk;
    CompletionExact(s1, verdict, s.accepted);
    CompleteNowInv(s1, verdict, s.accepted);
    KeptAfter(s, s1, CompleteNow(s1, verdict, s.accepted));
  }

  lemma RetiredWithinAccepted(s: State)
    requires RouteOk(s) && LedgerOk(s)
    ensures s.ledger.retiredRecords <= s.accepted
    ensures s.worker.Holding? ==> s.ledger.retiredRecords < s.accepted
  {}

  lemma StartOpenInv(s: State, kind: Kind, node: nat)
    requires Inv(s) && node < |s.actions| && node !in s.nodes && s.accepting
    ensures Inv(Started(s, kind, node)) && Kept(s, Started(s, kind, node))
  {
    hide CompletionOk, RouteOk, LedgerOk, HistoryOk, ActionsOk, MakeCompletion, CompleteNow, Kept;
    var s1 := s.(nodes := s.nodes + {node});
    var s2 := if kind.Shutdown? && !s.shutdownRequested then CloseAdmission(s1.(shutdownRequested := true)) else s1;
    forall i | 0 <= i < |s.actions| && s.actions[i].active
      ensures s.actions[i].node in s2.nodes && s.actions[i].node != node
    {
      PendingNode(s, i);
    }
    assert Inv(s2) by {
      hide FlagsOk;
      ClaimInv(s, s2);
    }
    FreeSlotExists(s, node);
    RetiredWithinAccepted(s2);
    if kind.Drain? && s.accepted == s.ledger.retiredRecords {
      CompletionExact(s2, Succeeded, s.accepted);
      CompleteNowInv(s2, Succeeded, s.accepted);
      KeptAfter(s, s2, CompleteNow(s2, Succeeded, s.accepted));
    } else {
      RegisterInv(s2, FirstFree(s.actions, 0), kind, node);
      KeptAfter(s, s2, Started(s, kind, node));
    }
  }

  lemma RecycleInv(s: State, node: nat)
    requires Inv(s) && Enabled(s, RecycleNode(node))
    ensures Inv(Step(s, RecycleNode(node))) && Kept(s, Step(s, RecycleNode(node)))
  {
    hide CompletionOk, RouteOk, LedgerOk, FlagsOk, HistoryOk, ActionsOk;
    var s' := s.(nodes := s.nodes - {node});
    forall i | 0 <= i < |s.actions| && s.actions[i].active
      ensures s.actions[i].node in s'.nodes
    {
      PendingNode(s, i);
    }
    ClaimInv(s, s');
  }

  /* --- Worker steps ----------------------------------------------------------------------------------- */

  /** The worker moves on; nothing is counted and nothing completes. */
  predicate Moved(s: State, s': State) {
    && s'.outcomes == s.outcomes && s'.routeRetired == s.routeRetired && s'.ledger == s.ledger
    && s'.discarded == s.discarded && SameActions(s, s') && s'.accepted == s.accepted
    && !s.worker.Holding? && !s'.worker.Holding? && !s.worker.Recording? && !s'.worker.Recording?
  }

  lemma MovedInv(s: State, s': State)
    requires Inv(s) && Moved(s, s') && !s.worker.RefusedRecord?
    requires s'.worker.RefusedRecord? ==> Consumed(s) < s.accepted
    requires s.ledger.encodingFailedSequence.Some? ==> FailureWorker(s'.worker)
    requires FlagsOk(s') && (Strict(s') ==> Strict(s))
    requires (s'.worker.Settling? || s'.worker.Discarding? || s'.worker.Stopped?) ==>
               forall i :: 0 <= i < |s.actions| ==> !s.actions[i].active
    ensures Inv(s') && Kept(s, s')
  {
    ActionsFrame(s, s');
    hide Totals, ActionsOk, HistoryOk, FlagsOk;
  }

  lemma EncodingFailedWorker(s: State)
    requires LedgerOk(s)
    ensures s.ledger.encodingFailedSequence.Some? ==> FailureWorker(s.worker)
  {}

  /** What a decision keeps. */
  predicate Decides(s: State, s': State) {
    && Moved(s, s') && (s.ledger.encodingFailedSequence.Some? ==> FailureWorker(s'.worker))
    && FlagsOk(s') && (Strict(s') ==> Strict(s))
    && !(s'.worker.Settling? || s'.worker.Discarding? || s'.worker.Stopped? || s'.worker.RefusedRecord?)
  }

  lemma DecidedKeeps(s: State)
    requires FlagsOk(s) && Deciding(s.worker)
    requires s.ledger.encodingFailedSequence.Some? ==> FailureWorker(s.worker)
    ensures Decides(s, Decided(s))
  {}

  lemma DecidingInv(s: State, keep: nat)
    requires Inv(s) && Deciding(s.worker)
    ensures Inv(Worked(s, keep)) && Kept(s, Worked(s, keep))
  {
    hide RouteOk, LedgerOk, ActionsOk, HistoryOk, FlagsOk, Strict, Moved, Decided, Kept;
    EncodingFailedWorker(s);
    DecidedKeeps(s);
    MovedInv(s, Decided(s));
  }

  lemma HoldingInv(s: State, keep: nat)
    requires Inv(s) && s.worker.Holding?
    ensures Inv(Worked(s, keep)) && Kept(s, Worked(s, keep))
  {
    hide Settle, Halted, CompleteSlot, CompletionOk, Decided;
    RetireTotals(s.ledger, s.outcomes);
    hide Totals;
    var s' := Worked(s, keep);
    assert RouteOk(s') && LedgerOk(s') && FlagsOk(s') by {
      hide ActionsOk, HistoryOk;
    }
    hide RouteOk, LedgerOk, FlagsOk;
    forall j | 0 <= j < |s'.actions| && s'.actions[j].active
      ensures PendingOk(s', s'.actions[j])
    {
      assert PendingOk(s, s.actions[j]);
    }
    forall id | 0 <= id < s'.started
      ensures id in s'.completions || Pending(s', id)
    {
      assert Pending(s, id) ==> Pending(s', id);
    }
  }

  lemma RefuseEncodingInv(s: State)
    requires Inv(s) && Enabled(s, RefuseEncoding)
    ensures Inv(Step(s, RefuseEncoding)) && Kept(s, Step(s, RefuseEncoding))
  {
    hide RouteOk, LedgerOk, ActionsOk, HistoryOk, Worked, Started, Halted, Kept;
    EncodingFailedWorker(s);
    var s' := Step(s, RefuseEncoding);
    MovedInv(s, s');
  }

  lemma FindNothingInv(s: State)
    requires Inv(s) && Enabled(s, FindNothing)
    ensures Inv(Step(s, FindNothing)) && Kept(s, Step(s, FindNothing))
  {
    hide RouteOk, LedgerOk, ActionsOk, HistoryOk, Worked, Started, Halted, Kept;
    EncodingFailedWorker(s);
    var s' := Step(s, FindNothing);
    MovedInv(s, s');
  }

  lemma AnswerQuiescentInv(s: State, quiescent: bool)
    requires Inv(s) && Enabled(s, AnswerQuiescent(quiescent))
    ensures Inv(Step(s, AnswerQuiescent(quiescent))) && Kept(s, Step(s, AnswerQuiescent(quiescent)))
  {
    hide RouteOk, LedgerOk, ActionsOk, HistoryOk, Worked, Started, Halted, Kept;
    EncodingFailedWorker(s);
    var s' := Step(s, AnswerQuiescent(quiescent));
    MovedInv(s, s');
  }

  lemma AnswerClosedInv(s: State, result: Option<int>)
    requires Inv(s) && Enabled(s, AnswerClosed(result))
    ensures Inv(Step(s, AnswerClosed(result))) && Kept(s, Step(s, AnswerClosed(result)))
  {
    hide RouteOk, LedgerOk, ActionsOk, HistoryOk, Worked, Started, Halted, Kept;
    EncodingFailedWorker(s);
    var s' := Step(s, AnswerClosed(result));
    MovedInv(s, s');
  }

  lemma RetiringInv(s: State, keep: nat)
    requires Inv(s) && s.worker.Retiring?
    ensures Inv(Worked(s, keep)) && Kept(s, Worked(s, keep))
  {
    hide Decided;
    var s' := Worked(s, keep);
    assert RouteOk(s') && LedgerOk(s') && FlagsOk(s') by {
      hide ActionsOk, HistoryOk, CompleteSlot, Totals, Range;
    }
    assert Grown(s.outcomes, s'.outcomes);
    hide RouteOk, LedgerOk, FlagsOk, Halted, Settle, RetireIntoLedger, Kept, Grown;
    ActionsFrame(s, s');
    KeptQuietly(s, s');
  }

  lemma RecordingInv(s: State, keep: nat)
    requires Inv(s) && s.worker.Recording?
    ensures Inv(Worked(s, keep)) && Kept(s, Worked(s, keep))
  {
    hide Decided;
    var s' := Worked(s, keep);
    assert RouteOk(s') && LedgerOk(s') && FlagsOk(s') by {
      hide ActionsOk, HistoryOk, CompleteSlot, Totals, Range;
    }
    assert Grown(s.outcomes, s'.outcomes);
    hide RouteOk, LedgerOk, FlagsOk, Halted, Settle, RetireIntoLedger, Kept, Grown;
    ActionsFrame(s, s');
    KeptQuietly(s, s');
  }

  lemma RefusedRecordInv(s: State, keep: nat)
    requires Inv(s) && s.worker.RefusedRecord?
    ensures Inv(Worked(s, keep)) && Kept(s, Worked(s, keep))
  {
    hide Decided;
    var s' := Worked(s, keep);
    assert RouteOk(s') && LedgerOk(s') && FlagsOk(s') by {
      hide ActionsOk, HistoryOk, CompleteSlot, Totals, Range;
    }
    assert Grown(s.outcomes, s'.outcomes);
    hide RouteOk, LedgerOk, FlagsOk, Halted, Settle, RetireIntoLedger, Kept, Grown;
    ActionsFrame(s, s');
    KeptQuietly(s, s');
  }

  lemma HaltingRouteInv(s: State, keep: nat)
    requires Inv(s) && s.worker.HaltingRoute?
    ensures Inv(Worked(s, keep)) && Kept(s, Worked(s, keep))
  {
    hide Decided;
    var s' := Worked(s, keep);
    assert RouteOk(s') && LedgerOk(s') && FlagsOk(s') by {
      hide ActionsOk, HistoryOk, CompleteSlot;
      HaltedRedelivers(s, keep);
      RedeliverInv(s, s'.outcomes);
      hide Totals, Range, Halted;
    }
    assert Grown(s.outcomes, s'.outcomes);
    hide RouteOk, LedgerOk, FlagsOk, Halted, Settle, RetireIntoLedger, Kept, Grown;
    ActionsFrame(s, s');
    KeptQuietly(s, s');
  }

  lemma SettlingInv(s: State, keep: nat)
    requires Inv(s) && s.worker.Settling?
    ensures Inv(Worked(s, keep)) && Kept(s, Worked(s, keep))
  {
    hide Decided;
    var s' := Worked(s, keep);
    assert RouteOk(s') && LedgerOk(s') && FlagsOk(s') by {
      hide ActionsOk, HistoryOk, CompleteSlot;
      SettleTotals(s);
      hide Totals, Range;
    }
    assert Grown(s.outcomes, s'.outcomes);
    hide RouteOk, LedgerOk, FlagsOk, Halted, Settle, RetireIntoLedger, Kept, Grown;
    ActionsFrame(s, s');
    KeptQuietly(s, s');
  }

  lemma DiscardingInv(s: State, keep: nat)
    requires Inv(s) && s.worker.Discarding?
    ensures Inv(Worked(s, keep)) && Kept(s, Worked(s, keep))
  {
    hide Decided;
    var s' := Worked(s, keep);
    assert RouteOk(s') && LedgerOk(s') && FlagsOk(s') by {
      hide ActionsOk, HistoryOk, CompleteSlot, Totals, Range;
    }
    assert Grown(s.outcomes, s'.outcomes);
    hide RouteOk, LedgerOk, FlagsOk, Halted, Settle, RetireIntoLedger, Kept, Grown;
    ActionsFrame(s, s');
    KeptQuietly(s, s');
  }

  lemma DeliverInv(s: State, bytes: nat, delivery: Delivery)
    requires Inv(s) && Enabled(s, Deliver(bytes, delivery))
    ensures Inv(Step(s, Deliver(bytes, delivery))) && Kept(s, Step(s, Deliver(bytes, delivery)))
  {
    var s' := Step(s, Deliver(bytes, delivery));
    assert RouteOk(s') && LedgerOk(s') && FlagsOk(s') by {
      hide ActionsOk, HistoryOk, Started, Worked;
      TotalsFrame(s.ledger, s.outcomes, s'.outcomes, s.ledger.retiredRecords);
      BytesFrame(s.outcomes, s'.outcomes, |s.outcomes|);
      hide Totals;
    }
    assert Grown(s.outcomes, s'.outcomes);
    hide RouteOk, LedgerOk, FlagsOk, Halted, Settle, RetireIntoLedger, Started, Worked, Kept, Grown;
    ActionsFrame(s, s');
    KeptQuietly(s, s');
  }

  /** The drain loop ends only when every Drain at its watermark has completed. */
  lemma DrainedInv(s: State)
    requires Inv(s) && s.worker.Draining? && FirstReady(s.actions, s.ledger.retiredRecords, 0) == |s.actions|
    ensures Inv(s.(worker := Retiring)) && Kept(s, s.(worker := Retiring))
  {
    var s' := s.(worker := Retiring);
    assert RouteOk(s') && LedgerOk(s') && FlagsOk(s') by {
      hide ActionsOk, HistoryOk, Totals, Range;
    }
    hide RouteOk, LedgerOk, FlagsOk, CompletionOk;
    forall j | 0 <= j < |s'.actions| && s'.actions[j].active
      ensures PendingOk(s', s'.actions[j])
    {
      assert PendingOk(s, s.actions[j]);
      assert !ReadyDrain(s.actions[j], s.ledger.retiredRecords);
    }
    forall id | 0 <= id < s'.started
      ensures id in s'.completions || Pending(s', id)
    {
      assert Pending(s, id) ==> Pending(s', id);
    }
  }

  lemma DrainingInv(s: State, keep: nat)
    requires Inv(s) && s.worker.Draining?
    ensures Inv(Worked(s, keep)) && Kept(s, Worked(s, keep))
  {
    hide Decided;
    var i := FirstReady(s.actions, s.ledger.retiredRecords, 0);
    if i == |s.actions| {
      DrainedInv(s);
    } else {
      assert PendingOk(s, s.actions[i]);
      assert !s.ledger.settled;
      hide RouteOk, LedgerOk, FlagsOk, ActionsOk, HistoryOk, CompleteSlot, Kept;
      CompleteSlotInv(s, i, Succeeded);
    }
  }

  /** The worker leaves a completion loop only when nothing is pending. */
  lemma NothingPendingInv(s: State, next: Worker)
    requires Inv(s) && FirstActive(s.actions, 0) == |s.actions|
    requires (s.worker.CompletingAll? && next.Settling?) || (s.worker.Finishing? && next.Stopped?)
    ensures Inv(s.(worker := next)) && Kept(s, s.(worker := next))
  {
    var s' := s.(worker := next);
    EncodingFailedWorker(s);
    hide RouteOk, LedgerOk, ActionsOk, HistoryOk;
    MovedInv(s, s');
  }

  lemma CompletingAllInv(s: State, keep: nat)
    requires Inv(s) && s.worker.CompletingAll?
    ensures Inv(Worked(s, keep)) && Kept(s, Worked(s, keep))
  {
    hide Decided;
    var i := FirstActive(s.actions, 0);
    assert !s.worker.verdict.Succeeded?;
    hide RouteOk, LedgerOk, FlagsOk, ActionsOk, HistoryOk, CompleteSlot, Kept;
    if i == |s.actions| {
      NothingPendingInv(s, Settling);
    } else {
      CompleteSlotInv(s, i, s.worker.verdict);
    }
  }

  lemma FinishingInv(s: State, keep: nat)
    requires Inv(s) && s.worker.Finishing?
    ensures Inv(Worked(s, keep)) && Kept(s, Worked(s, keep))
  {
    hide Decided;
    var i := FirstActive(s.actions, 0);
    if i == |s.actions| {
      hide RouteOk, LedgerOk, FlagsOk, ActionsOk, HistoryOk, CompleteSlot, Kept;
      NothingPendingInv(s, Stopped);
    } else {
      assert PendingOk(s, s.actions[i]);
      assert s.worker.verdict.Succeeded? ==>
               ActionWatermark(s, s.actions[i]) == s.ledger.retiredRecords && !s.ledger.settled;
      hide RouteOk, LedgerOk, FlagsOk, ActionsOk, HistoryOk, CompleteSlot, Kept;
      CompleteSlotInv(s, i, s.worker.verdict);
    }
  }

  lemma WorkInv(s: State, keep: nat)
    requires Inv(s)
    ensures Inv(Worked(s, keep)) && Kept(s, Worked(s, keep))
  {
    match s.worker
    case Looping => hide *; DecidingInv(s, keep);
    case Retiring => hide *; RetiringInv(s, keep);
    case Holding(_) => hide *; HoldingInv(s, keep);
    case Draining => hide *; DrainingInv(s, keep);
    case CheckingRoute => hide *; DecidingInv(s, keep);
    case AskingShutdown => hide *; DecidingInv(s, keep);
    case AskingRetired => hide *; DecidingInv(s, keep);
    case Recording(_) => hide *; RecordingInv(s, keep);
    case RefusedRecord => hide *; RefusedRecordInv(s, keep);
    case PreparingStop => hide *; DecidingInv(s, keep);
    case PreparingFailure => hide *; DecidingInv(s, keep);
    case HaltingRoute(_) => hide *; HaltingRouteInv(s, keep);
    case CompletingAll(_) => hide *; CompletingAllInv(s, keep);
    case Settling => hide *; SettlingInv(s, keep);
    case Discarding => hide *; DiscardingInv(s, keep);
    case Ending(_) => hide *; DecidingInv(s, keep);
    case Finishing(_) => hide *; FinishingInv(s, keep);
    case AskingQuiescent | AskingClosed | Delivering | Stopped => IdleWork(s, keep);
  }

  /** Without an answer from outside the worker waits. */
  lemma IdleWork(s: State, keep: nat)
    requires s.worker.AskingQuiescent? || s.worker.AskingClosed? || s.worker.Delivering? || s.worker.Stopped?
    ensures Worked(s, keep) == s
  {}

  lemma StartInv(s: State, kind: Kind, node: nat)
    requires Inv(s) && Enabled(s, StartAction(kind, node))
    ensures Inv(Step(s, StartAction(kind, node))) && Kept(s, Step(s, StartAction(kind, node)))
  {
    assert node < |s.actions| && node !in s.nodes;
    assert Step(s, StartAction(kind, node)) == Started(s, kind, node);
    hide *;
    if s.accepting {
      StartOpenInv(s, kind, node);
    } else {
      StartClosedInv(s, kind, node);
    }
  }

  lemma StepInv(s: State, a: Action)
    requires Inv(s)
    ensures Inv(Step(s, a)) && Kept(s, Step(s, a))
  {
    hide RouteOk, LedgerOk, FlagsOk, ActionsOk, HistoryOk, Worked, Started, Halted;
    if Enabled(s, a) {
      match a
      case StartAction(kind, node) => StartInv(s, kind, node);
      case RecycleNode(node) => RecycleInv(s, node);
      case Work(keep) => WorkInv(s, keep);
      case Deliver(bytes, delivery) => DeliverInv(s, bytes, delivery);
      case RefuseEncoding => RefuseEncodingInv(s);
      case FindNothing => FindNothingInv(s);
      case AnswerQuiescent(quiescent) => AnswerQuiescentInv(s, quiescent);
      case AnswerClosed(result) => AnswerClosedInv(s, result);
      case Accept | Complete(_, _) | BreakRoute(_, _) | RequestDestruction | StopRoute(_) => EnvironmentInv(s, a);
    }
  }

  /* --- Every run ---------------------------------------------------------------------------------------- */

  /** A domain as constructed: nothing accepted, no action pending, the worker about to loop. */
  predicate Start(s: State) {
    && s.accepted == 0 && !s.sealed && s.discarded == 0 && s.outcomes == [] && s.routeRetired == 0
    && s.ledger == Ledger(0, 0, 0, 0, 0, 0, 0, 0, None, false)
    && (forall i :: 0 <= i < |s.actions| ==> !s.actions[i].active)
    && s.accepting && !s.destroying && !s.routeFailed && s.worker == Looping
    && s.started == 0 && s.completions == map[]
  }

  lemma StartInvariant(s: State)
    requires Start(s)
    ensures Inv(s)
  {}

  lemma {:induction false} RunInv(s: State, schedule: seq<Action>)
    requires Start(s)
    ensures Inv(Run(s, schedule))
  {
    hide Inv, Step, Start;
    if schedule == [] {
      StartInvariant(s);
    } else {
      RunInv(s, schedule[..|schedule| - 1]);
      StepInv(Run(s, schedule[..|schedule| - 1]), schedule[|schedule| - 1]);
    }
  }

  /** In every run every report ever completed balances: each record below its watermark is counted
      once as delivered, failed or unfinished, nothing underflows, and a success leaves nothing over. */
  lemma EveryReportBalances(s: State, schedule: seq<Action>, id: nat)
    requires Start(s) && id in Run(s, schedule).completions
    ensures var c := Run(s, schedule).completions[id]; var r := c.report;
            && Exact(r, c.outcomes, c.refused)
            && r.unfinishedRecords >= 0 && r.unfinishedBytes >= 0
            && r.deliveredRecords + r.failedRecords + r.unfinishedRecords == r.watermark
            && r.deliveredBytes + r.failedBytes + r.unfinishedBytes == r.processedBytes
            && r.deliveredRecords + r.failedRecords <= r.processedRecords <= r.watermark
            && (c.outcome.Succeeded? ==> r.unfinishedRecords == 0 && r.unfinishedBytes == 0)
  {
    RunInv(s, schedule);
    var c := Run(s, schedule).completions[id];
    assert CompletionOk(c);
    hide Exact;
    ExactReportBalances(c.report, c.outcomes, c.refused);
  }

  /** Once the worker has stopped, every action ever started has completed. */
  lemma EveryActionCompletes(s: State, schedule: seq<Action>, id: nat)
    requires Start(s) && Run(s, schedule).worker.Stopped? && id < Run(s, schedule).started
    ensures id in Run(s, schedule).completions
  {
    RunInv(s, schedule);
    var t := Run(s, schedule);
    assert forall i :: 0 <= i < |t.actions| && t.actions[i].active ==> PendingOk(t, t.actions[i]);
  }

  /** A pending Drain never has less than the retired records below its watermark, so the in-order
      ledger never counts a later record in its report. */
  lemma DrainNotOvertaken(s: State, schedule: seq<Action>, i: nat)
    requires Start(s) && i < |Run(s, schedule).actions|
    requires Run(s, schedule).actions[i].active && Run(s, schedule).actions[i].kind.Drain?
    ensures Run(s, schedule).ledger.retiredRecords <= Run(s, schedule).actions[i].watermark
  {
    RunInv(s, schedule);
    assert PendingOk(Run(s, schedule), Run(s, schedule).actions[i]);
  }

  /** A caller that holds a fresh control node is never refused for want of an action slot. */
  lemma StartActionFindsSlot(s: State, schedule: seq<Action>, node: nat)
    requires Start(s) && node < |Run(s, schedule).actions| && node !in Run(s, schedule).nodes
    ensures FirstFree(Run(s, schedule).actions, 0) < |Run(s, schedule).actions|
  {
    RunInv(s, schedule);
    FreeSlotExists(Run(s, schedule), node);
  }

  /* --- What a report said stays true ---------------------------------------------------------------------- */

  predicate HistoryCurrent(s: State) {
    forall id :: id in s.completions ==> Grown(s.completions[id].outcomes, s.outcomes)
  }

  lemma {:induction false} RunCurrent(s: State, schedule: seq<Action>)
    requires Start(s)
    ensures HistoryCurrent(Run(s, schedule))
  {
    if schedule != [] {
      var t, a := Run(s, schedule[..|schedule| - 1]), schedule[|schedule| - 1];
      RunCurrent(s, schedule[..|schedule| - 1]);
      RunInv(s, schedule[..|schedule| - 1]);
      hide Inv, Step, Start;
      StepInv(t, a);
    }
  }

  /** A successful report is final: it stays exact for the deliveries of every later state. */
  lemma SuccessIsFinal(s: State, schedule: seq<Action>, id: nat)
    requires Start(s) && id in Run(s, schedule).completions && Run(s, schedule).completions[id].outcome.Succeeded?
    ensures var r := Run(s, schedule).completions[id].report; var outcomes := Run(s, schedule).outcomes;
            && r.watermark <= |outcomes|
            && r.deliveredRecords == Range(outcomes, 0, r.watermark, DeliveredRecords)
            && r.deliveredBytes == Range(outcomes, 0, r.watermark, DeliveredBytes)
            && r.failedRecords == Range(outcomes, 0, r.watermark, FailedRecords)
            && r.failedBytes == Range(outcomes, 0, r.watermark, FailedBytes)
  {
    var t := Run(s, schedule);
    var c := t.completions[id];
    RunInv(s, schedule);
    RunCurrent(s, schedule);
    assert CompletionOk(c);
    hide Inv, Start;
    var n := c.report.watermark;
    RangeFrame(c.outcomes, t.outcomes, 0, n, DeliveredRecords);
    RangeFrame(c.outcomes, t.outcomes, 0, n, DeliveredBytes);
    RangeFrame(c.outcomes, t.outcomes, 0, n, FailedRecords);
    RangeFrame(c.outcomes, t.outcomes, 0, n, FailedBytes);
  }

  /** An action completes at most once: no later step touches what it was given. */
  lemma {:induction false} CompletedOnce(s: State, schedule: seq<Action>, cut: nat, id: nat)
    requires Start(s) && cut <= |schedule| && id in Run(s, schedule[..cut]).completions
    ensures id in Run(s, schedule).completions
    ensures Run(s, schedule).completions[id] == Run(s, schedule[..cut]).completions[id]
    decreases |schedule|
  {
    if cut == |schedule| {
      assert schedule[..cut] == schedule;
    } else {
      var before := schedule[..|schedule| - 1];
      assert before[..cut] == schedule[..cut];
      CompletedOnce(s, before, cut, id);
      RunInv(s, before);
      hide Inv, Step, Start;
      StepInv(Run(s, before), schedule[|schedule| - 1]);
    }
  }
}
