/** The Runtime domain as the worker and its callers run it (src/runtime.cpp), over the in-memory route.

Each method is what one thread does to the domain's fields. A ghost `model` follows the machine of
module Runtime, whose theorems hold under every interleaving of these steps with those of producers,
callers and the route.
*/
module RuntimeDomain {
  import opened DeliveryAccounting
  import opened Options
  import Route = EncodedDestination
  import opened Runtime

  const UINT64_MAX := 0xFFFF_FFFF_FFFF_FFFF

  /** States of some run of some domain. */
  ghost predicate Reachable(s: State) {
    exists origin: State, schedule: seq<Action> :: Start(origin) && Run(origin, schedule) == s
  }

  lemma ReachableInv(s: State)
    requires Reachable(s)
    ensures Inv(s)
  {
    var origin: State, schedule: seq<Action> :| Start(origin) && Run(origin, schedule) == s;
    RunInv(origin, schedule);
  }

  lemma ReachableStep(s: State, a: Action)
    requires Reachable(s)
    ensures Reachable(Step(s, a)) && Inv(s) && Inv(Step(s, a)) && Kept(s, Step(s, a))
  {
    ReachableInv(s);
    StepInv(s, a);
    hide Inv, Step, Kept;
    var origin: State, schedule: seq<Action> :| Start(origin) && Run(origin, schedule) == s;
    assert (schedule + [a])[..|schedule|] == schedule;
    assert Run(origin, schedule + [a]) == Step(s, a);
  }

  /* --- Single blocks ------------------------------------------------------------------------------- */

  /** The route, the ledger and the flags other than the shutdown request are as they were. */
  predicate SameDomain(s: State, s': State) {
    && s'.ledger == s.ledger && s'.accepting == s.accepting && s'.routeFailed == s.routeFailed
    && s'.routeStopped == s.routeStopped && s'.outcomes == s.outcomes && s'.routeError == s.routeError
    && s'.routeRetired == s.routeRetired && s'.accepted == s.accepted
  }

  /** Only the worker has moved. */
  predicate MovedTo(s: State, s': State, worker: Worker) {
    && SameDomain(s, s') && s'.worker == worker && s'.shutdownRequested == s.shutdownRequested
    && s'.started == s.started && s'.actions == s.actions && s'.completions == s.completions
  }

  /** Pending action `i` has completed. */
  predicate CompletedAt(s: State, s': State, i: nat, verdict: OperationOutcome) {
    && SameDomain(s, s') && s'.worker == s.worker && s'.shutdownRequested == s.shutdownRequested
    && s'.started == s.started && i < |s.actions|
    && s'.actions == s.actions[i := s.actions[i].(active := false)]
    && s'.completions == s.completions[s.actions[i].id :=
         MakeCompletion(s, verdict, ActionWatermark(s, s.actions[i]))]
  }

  lemma DrainBlock(s: State)
    requires s.worker.Draining?
    ensures var i := FirstReady(s.actions, s.ledger.retiredRecords, 0);
            if i < |s.actions| then CompletedAt(s, Step(s, Work(0)), i, Succeeded)
            else MovedTo(s, Step(s, Work(0)), Retiring)
  {
    hide MakeCompletion;
  }

  lemma CompleteBlock(s: State)
    requires s.worker.CompletingAll?
    ensures var i := FirstActive(s.actions, 0);
            if i < |s.actions| then CompletedAt(s, Step(s, Work(0)), i, s.worker.verdict)
            else MovedTo(s, Step(s, Work(0)), Settling)
  {
    hide MakeCompletion, Halted, Settle, RetireIntoLedger, FirstReady, CanRetire;
  }

  lemma FinishBlock(s: State)
    requires s.worker.Finishing?
    ensures var i := FirstActive(s.actions, 0);
            if i < |s.actions| then CompletedAt(s, Step(s, Work(0)), i, s.worker.verdict)
            else MovedTo(s, Step(s, Work(0)), Stopped)
  {
    hide MakeCompletion, Halted, Settle, RetireIntoLedger, FirstReady, CanRetire;
  }

  /** Everything but the route, the ledger and the worker is as it was. */
  predicate SameControl(s: State, s': State) {
    && s'.accepting == s.accepting && s'.routeFailed == s.routeFailed && s'.routeStopped == s.routeStopped
    && s'.shutdownRequested == s.shutdownRequested && s'.started == s.started && s'.actions == s.actions
    && s'.accepted == s.accepted && s'.outcomes == s.outcomes && s'.routeError == s.routeError
  }

  lemma HoldBlock(s: State)
    requires s.worker.Holding? && s.routeError == 0
    ensures SameControl(s, Step(s, Work(0))) && Step(s, Work(0)).worker.Draining?
    ensures Step(s, Work(0)).routeRetired == s.routeRetired
    ensures Step(s, Work(0)).ledger == RetireIntoLedger(s.ledger, s.worker.outcome)
  {}

  lemma RetireBlock(s: State)
    requires Reachable(s) && s.worker.Retiring?
    ensures s.routeRetired == s.ledger.retiredRecords <= s.ledger.processedRecords == |s.outcomes| && !s.ledger.settled
    ensures SameControl(s, Step(s, Work(0))) && Step(s, Work(0)).ledger == s.ledger
    ensures if CanRetire(s)
            then Step(s, Work(0)).worker == Holding(s.outcomes[s.routeRetired]) &&
                 Step(s, Work(0)).routeRetired == s.routeRetired + 1
            else Step(s, Work(0)).worker == CheckingRoute && Step(s, Work(0)).routeRetired == s.routeRetired
  {
    ReachableInv(s);
  }

  lemma CompletedAtKeeps(s: State, s': State, i: nat, verdict: OperationOutcome)
    requires CompletedAt(s, s', i, verdict)
    ensures CompletedAs(s', s.actions[i].id, verdict)
    ensures forall id :: CompletedAs(s, id, verdict) ==> CompletedAs(s', id, verdict)
  {
    hide BuildReport;
  }

  lemma MovedKeeps(s: State, s': State, verdict: OperationOutcome)
    requires s'.completions == s.completions
    ensures forall id :: CompletedAs(s, id, verdict) ==> CompletedAs(s', id, verdict)
  {}

  lemma SettleBlock(s: State)
    requires Reachable(s) && s.worker.Settling?
    ensures s.routeRetired == s.ledger.retiredRecords <= |s.outcomes| && !s.ledger.settled
    ensures SameControl(s, Step(s, Work(0))) && Step(s, Work(0)).worker.Discarding?
    ensures Step(s, Work(0)).ledger == Settle(s)
  {
    ReachableInv(s);
  }

  lemma SettledTotals(s: State)
    requires Reachable(s) && s.worker.Settling?
    ensures Totals(Settle(s), s.outcomes, |s.outcomes|)
  {
    ReachableInv(s);
    SettleTotals(s);
  }

  /** The sequences from `lo` up to `hi` have completed. */
  predicate CompletedRange(outcomes: seq<Outcome>, lo: nat, hi: nat) {
    lo == hi || (hi <= |outcomes| && forall k :: lo <= k < hi ==> Completed(outcomes[k].delivery))
  }

  /** Nothing more can be retired: the next record is in flight or was never submitted. */
  predicate Blocked(s: State) {
    s.ledger.retiredRecords == |s.outcomes| ||
    (s.ledger.retiredRecords < |s.outcomes| && !Completed(s.outcomes[s.ledger.retiredRecords].delivery))
  }

  predicate CompletedAs(s: State, id: nat, verdict: OperationOutcome) {
    id in s.completions && s.completions[id].outcome == verdict
  }

  lemma EndBlock(s: State)
    requires s.worker.CompletingAll? || s.worker.Finishing?
    ensures var i := FirstActive(s.actions, 0);
            if i < |s.actions| then CompletedAt(s, Step(s, Work(0)), i, s.worker.verdict)
            else MovedTo(s, Step(s, Work(0)), if s.worker.CompletingAll? then Settling else Stopped)
  {
    hide Step, CompletedAt, MovedTo;
    if s.worker.CompletingAll? {
      CompleteBlock(s);
    } else {
      FinishBlock(s);
    }
  }

  /** A pending action's watermark is at or above the retirement point. */
  lemma PendingWatermark(s: State, i: nat)
    requires Reachable(s) && i < |s.actions| && s.actions[i].active
    ensures s.ledger.retiredRecords <= ActionWatermark(s, s.actions[i])
  {
    ReachableInv(s);
    RetiredWithinAccepted(s);
    assert PendingOk(s, s.actions[i]);
  }

  /** Nothing before `i` is ready, and slot `i` is: the scan stops there. */
  lemma {:induction false} FirstReadyAt(actions: seq<ControlAction>, retired: nat, from: nat, i: nat)
    requires from <= i <= |actions|
    requires forall j :: from <= j < i ==> !ReadyDrain(actions[j], retired)
    requires i < |actions| ==> ReadyDrain(actions[i], retired)
    ensures FirstReady(actions, retired, from) == i
    decreases i - from
  {
    if from < i {
      FirstReadyAt(actions, retired, from + 1, i);
    }
  }

  lemma {:induction false} FirstActiveAt(actions: seq<ControlAction>, from: nat, i: nat)
    requires from <= i <= |actions|
    requires forall j :: from <= j < i ==> !actions[j].active
    requires i < |actions| ==> actions[i].active
    ensures FirstActive(actions, from) == i
    decreases i - from
  {
    if from < i {
      FirstActiveAt(actions, from + 1, i);
    }
  }

  lemma {:induction false} FirstFreeAt(actions: seq<ControlAction>, from: nat, i: nat)
    requires from <= i <= |actions|
    requires forall j :: from <= j < i ==> actions[j].active
    requires i < |actions| ==> !actions[i].active
    ensures FirstFree(actions, from) == i
    decreases i - from
  {
    if from < i {
      FirstFreeAt(actions, from + 1, i);
    }
  }

  /** The action just started completed at once. */
  predicate Immediate(s: State, s': State, verdict: OperationOutcome) {
    && SameDomain(s, s') && s'.actions == s.actions && s'.shutdownRequested == s.shutdownRequested
    && s'.started == s.started + 1 && s.started in s'.completions
    && s'.completions[s.started].outcome == verdict
    && s'.completions[s.started].report == BuildReport(s, s.accepted)
  }

  /** The action just started occupies slot `i`. */
  predicate Registered(s: State, s': State, i: nat, kind: Kind, node: nat) {
    && SameDomain(s, s') && s'.started == s.started + 1
    && s'.shutdownRequested == (s.shutdownRequested || kind.Shutdown?)
    && i < |s.actions| && s'.actions == s.actions[i := ControlAction(true, kind, s.accepted, s.started, node)]
  }

  lemma StartClosed(s: State, kind: Kind, node: nat)
    requires Enabled(s, StartAction(kind, node)) && !s.accepting
    ensures Immediate(s, Step(s, StartAction(kind, node)),
                      if s.destroying then Cancelled' else if s.routeFailed then Failed' else Succeeded)
  {
    ReportFrame(s, s.(nodes := s.nodes + {node}), s.accepted);
    hide BuildReport;
  }

  lemma StartDrained(s: State, node: nat)
    requires Enabled(s, StartAction(Drain, node)) && s.accepting && s.accepted == s.ledger.retiredRecords
    ensures Immediate(s, Step(s, StartAction(Drain, node)), Succeeded)
  {
    ReportFrame(s, s.(nodes := s.nodes + {node}), s.accepted);
    hide BuildReport;
  }

  lemma StartRegisters(s: State, kind: Kind, node: nat)
    requires Reachable(s) && Enabled(s, StartAction(kind, node)) && s.accepting
    requires kind.Drain? ==> s.accepted != s.ledger.retiredRecords
    ensures Registered(s, Step(s, StartAction(kind, node)), FirstFree(s.actions, 0), kind, node)
    ensures Pending(Step(s, StartAction(kind, node)), s.started)
  {
    assert FirstFree(s.actions, 0) < |s.actions| by {
      ReachableInv(s);
      FreeSlotExists(s, node);
    }
    hide Reachable, CompleteNow, MakeCompletion;
    var t, i := Step(s, StartAction(kind, node)), FirstFree(s.actions, 0);
    assert t.actions[i].active && t.actions[i].id == s.started;
  }

  /** A report does not depend on the control state. */
  lemma ReportFrame(s: State, s': State, watermark: nat)
    requires s'.ledger == s.ledger && s'.outcomes == s.outcomes && s'.routeRetired == s.routeRetired
    ensures BuildReport(s', watermark) == BuildReport(s, watermark)
  {}

  /** Where the route stands when a report below the ledger's retirement point needs its summary. */
  lemma RouteWithin(s: State)
    requires Reachable(s)
    ensures s.ledger.retiredRecords <= s.routeRetired <= s.ledger.retiredRecords + 1
    ensures s.routeRetired <= |s.outcomes| && s.ledger.retiredRecords <= s.accepted
    ensures s.worker.Retiring? || s.worker.Settling? ==> s.routeRetired == s.ledger.retiredRecords && !s.ledger.settled
    ensures s.worker.Draining? || s.worker.CompletingAll? || s.worker.Finishing? ==> !s.ledger.settled
  {
    ReachableInv(s);
    RetiredWithinAccepted(s);
  }

  class Domain {
    const actions: array<ControlAction>
    const route: Route.Destination
    var ledger: Ledger
    var accepting: bool
    var shutdownRequested: bool
    var routeFailed: bool
    var started: nat
    ghost var model: State

    ghost predicate Valid()
      reads this, actions, route, route.slots
    {
      && route.Valid() && Reachable(model)
      && model.actions == actions[..] && model.ledger == ledger && model.started == started
      && model.accepting == accepting && model.shutdownRequested == shutdownRequested
      && model.routeFailed == routeFailed && model.routeStopped == route.stopped
      && model.outcomes == route.outcomes && model.routeError == 0
      && (!ledger.settled ==> route.retired == model.routeRetired)
    }

    ghost method Track(a: Action)
      requires Reachable(model)
      modifies this`model
      ensures model == Step(old(model), a) && Reachable(model)
    {
      hide Step, Reachable, Inv, Kept;
      ReachableStep(model, a);
      model := Step(model, a);
    }

    constructor (controlOperations: nat, destination: Route.Destination)
      requires destination.Valid() && destination.outcomes == [] && destination.retired == 0 && !destination.stopped
      ensures Valid() && Start(model) && route == destination && actions.Length == controlOperations && fresh(actions)
    {
      var table := new ControlAction[controlOperations](_ => ControlAction(false, Drain, 0, 0, 0));
      actions, route := table, destination;
      ledger := Ledger(0, 0, 0, 0, 0, 0, 0, 0, None, false);
      accepting, shutdownRequested, routeFailed, started := true, false, false, 0;
      model := State(0, false, true, 0, [], 0, false, 0, Ledger(0, 0, 0, 0, 0, 0, 0, 0, None, false), table[..], {},
                     true, false, false, false, Looping, 0, map[]);
      new;
      assert Run(model, []) == model;
    }

    /** Exact accounting below the watermark, read from the ledger and the route. */
    method BuildReportLocked(watermark: nat) returns (report: Report)
      requires Valid() && ledger.retiredRecords <= watermark
      ensures report == BuildReport(model, watermark)
    {
      RouteWithin(model);
      var delivered, failed, processed, bytes;
      var deliveredBytes, failedBytes;
      if ledger.settled {
        processed, bytes := ledger.processedRecords, ledger.processedBytes;
        delivered, deliveredBytes := ledger.deliveredRecords, ledger.deliveredBytes;
        failed, failedBytes := ledger.failedRecords + ledger.encodingFailedRecords, ledger.failedBytes;
      } else {
        var inFlight := Summary(0, 0, 0, 0, 0, 0);
        if ledger.retiredRecords < watermark {
          inFlight := route.SummarizeInFlight(watermark);
          assert inFlight == InFlightSummary(model, watermark);
        }
        var refused := if ledger.encodingFailedSequence.Some? && ledger.encodingFailedSequence.value < watermark
                       then 1 else 0;
        processed := ledger.retiredRecords + inFlight.records + refused;
        bytes := ledger.deliveredBytes + ledger.failedBytes + inFlight.bytes;
        delivered := ledger.deliveredRecords + inFlight.deliveredRecords;
        deliveredBytes := ledger.deliveredBytes + inFlight.deliveredBytes;
        failed := ledger.failedRecords + inFlight.failedRecords + refused;
        failedBytes := ledger.failedBytes + inFlight.failedBytes;
      }
      report := Report(watermark, processed, bytes, delivered, deliveredBytes, failed, failedBytes,
                       watermark - delivered - failed, bytes - deliveredBytes - failedBytes);
    }

    /** The first slot without a pending action. */
    method FindFreeAction() returns (free: nat)
      ensures free == FirstFree(actions[..], 0)
    {
      free := 0;
      while free < actions.Length && actions[free].active
        invariant free <= actions.Length && forall j :: 0 <= j < free ==> actions[j].active
      {
        free := free + 1;
      }
      FirstFreeAt(actions[..], 0, free);
    }

    /** Reports on an action that completes as it starts. */
    method CompleteAtOnce(kind: Kind, node: nat, accepted: nat, outcome: OperationOutcome) returns (report: Report)
      requires Valid() && accepted == model.accepted && ledger.retiredRecords <= accepted
      requires Immediate(model, Step(model, Action.StartAction(kind, node)), outcome)
      modifies this`model, this`started
      ensures Valid() && model == Step(old(model), Action.StartAction(kind, node))
      ensures old(model).started in model.completions
      ensures model.completions[old(model).started].outcome == outcome
      ensures model.completions[old(model).started].report == report
    {
      hide Reachable, Step, Route.Destination.Valid, BuildReport;
      report := BuildReportLocked(accepted);
      Track(Action.StartAction(kind, node));
      started := started + 1;
    }

    /** Registers an action that has to wait. */
    method Register(kind: Kind, node: nat, accepted: nat, free: nat)
      requires Valid() && accepted == model.accepted
      requires Registered(model, Step(model, Action.StartAction(kind, node)), free, kind, node)
      modifies this`model, this`shutdownRequested, this`started, actions
      ensures Valid() && model == Step(old(model), Action.StartAction(kind, node))
    {
      hide Reachable, Step, Route.Destination.Valid;
      Track(Action.StartAction(kind, node));
      shutdownRequested := shutdownRequested || kind.Shutdown?;
      ghost var before := actions[..];
      actions[free] := ControlAction(true, kind, accepted, started, node);
      started := started + 1;
      assert actions[..] == before[free := actions[free]];
    }

    /** Starts a Drain or Shutdown: it completes at once or is registered, never refused. */
    method StartAction(kind: Kind, node: nat, accepted: nat, destroying: bool)
      returns (immediate: Option<(OperationOutcome, Report)>)
      requires Valid() && accepted == model.accepted && destroying == model.destroying
      requires node < actions.Length && node !in model.nodes
      modifies this`model, this`shutdownRequested, this`started, actions
      ensures Valid() && model == Step(old(model), Action.StartAction(kind, node))
      ensures immediate.Some? ==>
                var id := old(model).started;
                && id in model.completions && model.completions[id].outcome == immediate.value.0
                && model.completions[id].report == immediate.value.1
      ensures immediate.None? ==> Pending(model, old(model).started)
    {
      assert Enabled(model, Action.StartAction(kind, node));
      hide Step, BuildReport, Enabled, Pending, FirstFree, Immediate, Registered, Reachable;
      RouteWithin(model);
      if !accepting {
        var outcome := if destroying then Cancelled' else if routeFailed then Failed' else Succeeded;
        StartClosed(model, kind, node);
        var report := CompleteAtOnce(kind, node, accepted, outcome);
        return Some((outcome, report));
      }
      var free := FindFreeAction();
      if kind.Drain? && accepted == ledger.retiredRecords {
        StartDrained(model, node);
        var report := CompleteAtOnce(kind, node, accepted, Succeeded);
        return Some((Succeeded, report));
      }
      StartRegisters(model, kind, node);
      Register(kind, node, accepted, free);
      return None;
    }

    /** Completes pending action `i`: the block that deactivates it and builds its report. */
    method CompleteLocked(i: nat, verdict: OperationOutcome, accepted: nat) returns (report: Report)
      requires Valid() && accepted == model.accepted && i < actions.Length && actions[i].active
      requires CompletedAt(model, Step(model, Work(0)), i, verdict)
      modifies this`model, actions
      ensures Valid() && model == Step(old(model), Work(0)) && CompletedAt(old(model), model, i, verdict)
      ensures actions[..] == old(actions[..])[i := old(actions[i]).(active := false)]
      ensures report == BuildReport(old(model), ActionWatermark(old(model), old(actions[i])))
    {
      hide Reachable, Step, Route.Destination.Valid, BuildReport, MakeCompletion;
      PendingWatermark(model, i);
      report := BuildReportLocked(if actions[i].kind.Drain? then actions[i].watermark else accepted);
      Track(Work(0));
      ghost var before := actions[..];
      actions[i] := actions[i].(active := false);
      assert actions[..] == before[i := actions[i]];
    }

    /** The first Drain that has reached its watermark. */
    method FindReady() returns (ready: nat)
      ensures ready == FirstReady(actions[..], ledger.retiredRecords, 0)
    {
      ready := 0;
      while ready < actions.Length && !ReadyDrain(actions[ready], ledger.retiredRecords)
        invariant ready <= actions.Length &&
                  forall j :: 0 <= j < ready ==> !ReadyDrain(actions[j], ledger.retiredRecords)
      {
        ready := ready + 1;
      }
      FirstReadyAt(actions[..], ledger.retiredRecords, 0, ready);
    }

    /** Completes every Drain at or below the retirement point as succeeded, and nothing else. */
    method CompleteReadyDrains(accepted: nat)
      requires Valid() && model.worker.Draining? && accepted == model.accepted
      modifies this`model, actions
      ensures Valid() && model.worker.Retiring? && SameDomain(old(model), model)
      ensures forall i :: 0 <= i < actions.Length ==>
                actions[i] == (if ReadyDrain(old(actions[i]), ledger.retiredRecords)
                               then old(actions[i]).(active := false) else old(actions[i]))
      ensures forall i :: 0 <= i < actions.Length && ReadyDrain(old(actions[i]), ledger.retiredRecords) ==>
                CompletedAs(model, old(actions[i]).id, Succeeded)
    {
      hide Step, Route.Destination.Valid, Reachable, FirstReady, MakeCompletion, CompletedAs;
      ghost var lo := 0;
      while true
        invariant Valid() && model.worker.Draining? && SameDomain(old(model), model) && accepted == model.accepted
        invariant lo <= actions.Length
        invariant forall j :: 0 <= j < lo ==> !ReadyDrain(actions[j], ledger.retiredRecords)
        invariant forall j :: 0 <= j < actions.Length ==>
                    actions[j] == old(actions[j]) ||
                    (ReadyDrain(old(actions[j]), ledger.retiredRecords) &&
                     actions[j] == old(actions[j]).(active := false) &&
                     CompletedAs(model, old(actions[j]).id, Succeeded))
        decreases actions.Length - lo
      {
        var ready := FindReady();
        DrainBlock(model);
        if ready == actions.Length {
          MovedKeeps(model, Step(model, Work(0)), Succeeded);
          Track(Work(0));
          return;
        }
        ghost var before := model;
        var report := CompleteLocked(ready, Succeeded, accepted);
        CompletedAtKeeps(before, model, ready, Succeeded);
        lo := ready + 1;
      }
    }

    /** The first pending action. */
    method FindActive() returns (active: nat)
      ensures active == FirstActive(actions[..], 0)
    {
      active := 0;
      while active < actions.Length && !actions[active].active
        invariant active <= actions.Length && forall j :: 0 <= j < active ==> !actions[j].active
      {
        active := active + 1;
      }
      FirstActiveAt(actions[..], 0, active);
    }

    /** Completes every pending action with one outcome. */
    method CompleteActions(outcome: OperationOutcome, accepted: nat)
      requires Valid() && accepted == model.accepted
      requires (model.worker.CompletingAll? || model.worker.Finishing?) && model.worker.verdict == outcome
      modifies this`model, actions
      ensures Valid() && SameDomain(old(model), model)
      ensures model.worker == if old(model).worker.CompletingAll? then Settling else Stopped
      ensures forall i :: 0 <= i < actions.Length ==> actions[i] == old(actions[i]).(active := false)
      ensures forall i :: 0 <= i < actions.Length && old(actions[i]).active ==>
                CompletedAs(model, old(actions[i]).id, outcome)
    {
      hide Step, Valid, Reachable, MakeCompletion, CompletedAs, CompletedAt;
      ghost var lo := 0;
      while true
        invariant Valid() && model.worker == old(model).worker && SameDomain(old(model), model)
        invariant lo <= actions.Length && forall j :: 0 <= j < lo ==> !actions[j].active
        invariant forall j :: 0 <= j < actions.Length ==>
                    actions[j] == old(actions[j]) ||
                    (old(actions[j]).active && actions[j] == old(actions[j]).(active := false) &&
                     CompletedAs(model, old(actions[j]).id, outcome))
        decreases actions.Length - lo
      {
        var active := CompleteNext(outcome, accepted);
        if active == actions.Length {
          return;
        }
        lo := active + 1;
      }
    }

    /** One turn of the completion loop: the first pending action completes, or the loop ends. */
    method CompleteNext(outcome: OperationOutcome, accepted: nat) returns (active: nat)
      requires Valid() && accepted == model.accepted
      requires (model.worker.CompletingAll? || model.worker.Finishing?) && model.worker.verdict == outcome
      modifies this`model, actions
      ensures Valid() && SameDomain(old(model), model) && active <= actions.Length
      ensures forall j :: 0 <= j < active ==> !old(actions[j]).active
      ensures active == actions.Length ==>
                actions[..] == old(actions[..]) &&
                model.worker == if old(model).worker.CompletingAll? then Settling else Stopped
      ensures active < actions.Length ==>
                && old(actions[active]).active && model.worker == old(model).worker
                && actions[..] == old(actions[..])[active := old(actions[active]).(active := false)]
                && CompletedAs(model, old(actions[active]).id, outcome)
      ensures forall id :: CompletedAs(old(model), id, outcome) ==> CompletedAs(model, id, outcome)
    {
      hide Step, Route.Destination.Valid, Reachable, MakeCompletion, CompletedAs;
      active := FindActive();
      EndBlock(model);
      if active == actions.Length {
        MovedKeeps(model, Step(model, Work(0)), outcome);
        Track(Work(0));
        return;
      }
      ghost var before := model;
      var report := CompleteLocked(active, outcome, accepted);
      CompletedAtKeeps(before, model, active, outcome);
    }

    /** Folds one retirement into the ledger. */
    method RecordRetirement(retirement: Outcome)
      requires Valid() && model.worker == Holding(retirement)
      modifies this`ledger, this`model
      ensures Valid() && model == Step(old(model), Work(0)) &&
              model.ledger == RetireIntoLedger(old(model).ledger, retirement)
      ensures model.worker.Draining? && model.outcomes == old(model).outcomes && model.accepted == old(model).accepted
    {
      HoldBlock(model);
      hide Step, Route.Destination.Valid, Reachable;
      Track(Work(0));
      if retirement.delivery.Delivered? {
        ledger := ledger.(retiredRecords := ledger.retiredRecords + 1, deliveredRecords := ledger.deliveredRecords + 1,
                          deliveredBytes := ledger.deliveredBytes + retirement.bytes);
      } else {
        ledger := ledger.(retiredRecords := ledger.retiredRecords + 1, failedRecords := ledger.failedRecords + 1,
                          failedBytes := ledger.failedBytes + retirement.bytes);
      }
    }

    /** Asks the route for the next sequence; the worker then holds its outcome or moves on. */
    method TakeRetirement() returns (retirement: Option<Outcome>)
      requires Valid() && model.worker.Retiring?
      modifies this`model, route`retired, route.slots
      ensures Valid() && model == Step(old(model), Work(0)) && SameControl(old(model), model)
      ensures retirement.Some? <==> !Blocked(old(model))
      ensures retirement.Some? ==>
                model.worker == Holding(retirement.value) && Completed(retirement.value.delivery) &&
                model.ledger == old(model).ledger && model.ledger.retiredRecords < |model.outcomes| &&
                retirement.value == model.outcomes[model.ledger.retiredRecords]
      ensures retirement.None? ==> model.worker.CheckingRoute? && model.ledger == old(model).ledger
    {
      hide Step, Reachable, Route.Destination.Valid;
      RetireBlock(model);
      retirement := None;
      if ledger.retiredRecords < ledger.processedRecords {
        retirement := route.TryRetire(ledger.retiredRecords);
      }
      Track(Work(0));
    }

    /** Retires completed deliveries strictly in admission order, stopping at the first that is still
        in flight, and completes each Drain exactly when its watermark is reached. */
    method RetireCompletedDeliveries(accepted: nat)
      requires Valid() && model.worker.Retiring? && accepted == model.accepted
      modifies this`ledger, this`model, actions, route`retired, route.slots
      ensures Valid() && model.worker.CheckingRoute? && model.outcomes == old(model).outcomes
      ensures old(model).ledger.retiredRecords <= model.ledger.retiredRecords && Blocked(model)
      ensures CompletedRange(model.outcomes, old(model).ledger.retiredRecords, model.ledger.retiredRecords)
    {
      hide Valid, Step, Reachable;
      while true
        invariant Valid() && model.worker.Retiring? && accepted == model.accepted
        invariant model.outcomes == old(model).outcomes
        invariant old(model).ledger.retiredRecords <= model.ledger.retiredRecords
        invariant CompletedRange(model.outcomes, old(model).ledger.retiredRecords, model.ledger.retiredRecords)
        decreases |model.outcomes| - model.ledger.retiredRecords
      {
        var retirement := TakeRetirement();
        if retirement.None? {
          return;
        }
        RecordRetirement(retirement.value);
        CompleteReadyDrains(accepted);
      }
    }

    /** The ledger half of settling. */
    method SettleLocked()
      requires Valid() && model.worker.Settling? && |model.outcomes| <= UINT64_MAX
      modifies this`ledger, this`model
      ensures Valid() && model == Step(old(model), Work(0)) && ledger == Settle(old(model)) && ledger.settled
      ensures model.outcomes == old(model).outcomes
    {
      hide Step, Reachable, Route.Destination.Valid;
      SettleBlock(model);
      var inFlight := route.SummarizeInFlight(UINT64_MAX);
      assert inFlight == InFlightSummary(model, |model.outcomes|);
      hide InFlightSummary, RangeSummary;
      Track(Work(0));
      ledger := ledger.(deliveredRecords := ledger.deliveredRecords + inFlight.deliveredRecords,
                        deliveredBytes := ledger.deliveredBytes + inFlight.deliveredBytes,
                        failedRecords := ledger.failedRecords + inFlight.failedRecords,
                        failedBytes := ledger.failedBytes + inFlight.failedBytes, settled := true);
    }

    /** Folds what the stopped route still holds into the ledger, which then accounts for every
        submitted record, and lets the route forget it. */
    method SettleInFlight()
      requires Valid() && model.worker.Settling? && route.stopped && |model.outcomes| <= UINT64_MAX
      modifies this`ledger, this`model, route`retired, route.slots
      ensures Valid() && model == Step(old(model), Work(0)) && ledger.settled
      ensures Totals(ledger, model.outcomes, |model.outcomes|)
    {
      SettledTotals(model);
      hide Step, Reachable, Route.Destination.Valid, Totals, Settle;
      SettleLocked();
      route.DiscardInFlight();
    }
  }
}
