/** The producer kernel's calls as its threads run them (src/producer/producer_kernel.cpp).

The fields are the kernel's; a ghost `model` follows the machine of module ProducerKernel, whose theorems
hold under every interleaving of the steps these calls are made of. What comes from outside a call (the
credit ledger's answers, whether the source texts fit, whether the builder completes, what the record writer
publishes) is a parameter.
*/
module KernelCalls {
  import opened Accounting
  import CreditLedger
  import L = ProducerLanes
  import opened Options
  import opened ProducerKernel

  datatype ConsumeStatus = Record(envelope: L.Envelope) | Pending | Empty

  datatype PublishOutcome = Accepted | NoProducerSlot | LaneFull | BudgetExhausted | InvalidRecord

  ghost predicate Reachable(s: State) {
    exists origin: State, schedule: seq<Action> :: Start(origin) && Run(origin, schedule) == s
  }

  lemma ReachableInv(s: State)
    requires Reachable(s)
    ensures Inv(s)
  {
    hide Inv, Start;
    var origin: State, schedule: seq<Action> :| Start(origin) && Run(origin, schedule) == s;
    RunInv(origin, schedule);
  }

  lemma ReachableStep(s: State, a: Action)
    requires Reachable(s)
    ensures Reachable(Step(s, a))
  {
    hide Step, Start;
    var origin: State, schedule: seq<Action> :| Start(origin) && Run(origin, schedule) == s;
    assert (schedule + [a])[..|schedule|] == schedule;
    assert Run(origin, schedule + [a]) == Step(s, a);
  }

  /** Everything but the lanes and the stage of `p` is as it was. */
  predicate SameTables(s: State, s': State) {
    && s'.maximum == s.maximum && s'.open == s.open && s'.controls == s.controls && s'.cells == s.cells
    && s'.taking == s.taking && s'.scan == s.scan && |s'.stages| == |s.stages|
  }

  lemma LaneEffect(s: State, p: nat, m: L.LaneMove)
    requires p < |s.lanes.lanes| == |s.stages| && !m.Abandon?
    ensures SameTables(s, Step(s, LaneStep(p, m)))
    ensures Step(s, LaneStep(p, m)).lanes == L.Step(s.lanes, L.Move(p, m))
    ensures |Step(s, LaneStep(p, m)).lanes.lanes| == |s.lanes.lanes|
    ensures L.Enabled(s.lanes, L.Move(p, m)) && (m.ReadPositions? || m.ClearFlag?) ==>
              Step(s, LaneStep(p, m)).stages == s.stages[p := Fresh]
    ensures !(m.ReadPositions? || m.ClearFlag?) ==> Step(s, LaneStep(p, m)).stages == s.stages
  {
    hide L.Moved, L.CanMove;
  }

  lemma Shape(s: State)
    requires Reachable(s)
    ensures |s.stages| == |s.controls| == |s.late| == |s.lanes.lanes| && |s.cells| == |s.lanes.cells|
    ensures s.maximum % QUANTUM == 0 && 0 < s.maximum <= MAXIMUM_RECORD_BYTES
    ensures |s.lanes.lanes| <= L.MAXIMUM_PRODUCER_SLOTS && |s.cells| <= L.MAXIMUM_INGRESS_CELLS
  {
    ReachableInv(s);
    hide L.Inv, CellsOk, EntriesOk, ControlsOk, ScanOk;
  }

  /** The kernel's steps of a claim attempt that obtains the lane's flag. */
  function Attempt(s: State, p: nat): State {
    Step(Step(s, LaneStep(p, L.SetFlag)), LaneStep(p, L.ReadPositions))
  }

  /** Lane `p` is claimed at the cell, and its holder is at the stage. */
  predicate At(s: State, p: nat, cell: nat, stage: Stage) {
    Working(s, p) && ClaimedCell(s, p) == cell && s.stages[p] == stage
  }

  /** The claim's holder moves on: only its stage and its cell change. */
  lemma AdvanceEffect(s: State, p: nat, c: nat, stage: Stage, m: ProducerMove)
    requires At(s, p, c, stage)
    requires m.FinishRecord? && m.result.Some? ==> WriterPromises(m.result.value, s.maximum)
    ensures var r := Produce(stage, s.cells[c], s.controls[p], s.open, s.maximum, m);
            var t := Step(s, ProducerStep(p, m));
            && At(t, p, c, r.stage) && t.lanes == s.lanes && t.maximum == s.maximum && t.open == s.open
            && t.controls == s.controls && t.taking == s.taking && t.scan == s.scan && |t.stages| == |s.stages|
            && t.cells == s.cells[c := r.cell] && (r.cell == s.cells[c] ==> t.cells == s.cells)
  {
    hide Produce, WriterPromises;
  }

  lemma AtCell(s: State, p: nat, c: nat, stage: Stage)
    requires At(s, p, c, stage)
    ensures c < |s.cells| && p < |s.controls|
  {}

  /** The claimed cell is as far as its holder. */
  lemma AtStageCell(s: State, p: nat, c: nat, stage: Stage)
    requires Reachable(s) && At(s, p, c, stage)
    ensures c < |s.cells| && p < |s.controls| && StageCell(stage, s.cells[c], s.maximum)
  {
    ReachableInv(s);
    LaneAt(s, p);
    hide Inv, PlacesOk;
    ClaimedStage(s.lanes.lanes[p], s.stages[p], s.cells, s.lanes.admissions, s.maximum, ClearedAt(s, p));
  }

  lemma GiveUpEffect(s: State, p: nat, c: nat)
    requires At(s, p, c, Refused)
    ensures SameTables(s, Step(s, GiveUp(p)))
    ensures Step(s, GiveUp(p)).lanes == L.Step(s.lanes, L.Move(p, L.Abandon))
    ensures Step(s, GiveUp(p)).lanes.admissions == s.lanes.admissions
  {}

  lemma AttemptEffect(s: State, p: nat)
    requires Reachable(s) && L.Reachable(s.lanes) && p < |s.lanes.lanes| && !s.lanes.lanes[p].publishing
    ensures SameTables(s, Attempt(s, p)) && Attempt(s, p).lanes == L.ClaimAttempt(s.lanes, p)
    ensures SameTables(s, Step(Attempt(s, p), LaneStep(p, L.ClearFlag)))
    ensures Step(Attempt(s, p), LaneStep(p, L.ClearFlag)).lanes ==
            L.Step(L.ClaimAttempt(s.lanes, p), L.Move(p, L.ClearFlag))
    ensures LogKept(s.lanes, Attempt(s, p).lanes)
    ensures LogKept(s.lanes, Step(Attempt(s, p), LaneStep(p, L.ClearFlag)).lanes)
    ensures var l := s.lanes.lanes[p];
            && l.capacity > 0
            && (l.published - l.read != l.capacity ==>
                  && Attempt(s, p).lanes.lanes[p] == l.(publishing := true, holder := L.Claimed(l.write))
                  && L.CellOf(l, l.write) < |s.cells|
                  && At(Attempt(s, p), p, L.CellOf(l, l.write), Fresh))
  {
    Shape(s);
    L.ReachablePositions(s.lanes, p);
    L.ClaimEffect(s.lanes, p);
    var s1 := Step(s, LaneStep(p, L.SetFlag));
    LaneEffect(s, p, L.SetFlag);
    LaneEffect(s1, p, L.ReadPositions);
    LaneEffect(Attempt(s, p), p, L.ClearFlag);
    AttemptStage(s, p);
    MoveKeepsLog(s.lanes, p, L.SetFlag);
    MoveKeepsLog(s1.lanes, p, L.ReadPositions);
    MoveKeepsLog(Attempt(s, p).lanes, p, L.ClearFlag);
    hide Reachable, L.Reachable;
  }

  lemma ReachableAttempt(s: State, p: nat)
    requires Reachable(s)
    ensures Reachable(Attempt(s, p))
  {
    hide Reachable, Step;
    ReachableStep(s, LaneStep(p, L.SetFlag));
    ReachableStep(Step(s, LaneStep(p, L.SetFlag)), LaneStep(p, L.ReadPositions));
  }

  lemma AttemptStage(s: State, p: nat)
    requires p < |s.lanes.lanes| == |s.stages| && !s.lanes.lanes[p].publishing
    ensures |Attempt(s, p).stages| == |s.stages| && |Attempt(s, p).late| == |s.late|
    ensures Attempt(s, p).stages[p].Fresh?
  {}

  /** The same records were admitted. */
  predicate LogKept(s: L.State, s': L.State) {
    s'.admissions == s.admissions && s'.accepted == s.accepted
  }

  lemma MoveKeepsLog(s: L.State, p: nat, m: L.LaneMove)
    ensures LogKept(s, L.Step(s, L.Move(p, m)))
  {
    hide L.Moved, L.CanMove;
  }

  /** The steps that hand an installed record to its lane. */
  function HandedOver(s: State, p: nat): State {
    Step(Step(Step(Step(Step(s, PublishRecord(p)), WriteCell(p)), LaneStep(p, L.AdvanceWrite)),
              LaneStep(p, L.StorePublished)), LaneStep(p, L.ClearFlag))
  }

  lemma HandedOverReachable(s: State, p: nat)
    requires Reachable(s)
    ensures Reachable(HandedOver(s, p))
  {
    hide Reachable, Step;
    var s1 := Step(s, PublishRecord(p));
    var s2 := Step(s1, WriteCell(p));
    var s3 := Step(s2, LaneStep(p, L.AdvanceWrite));
    var s4 := Step(s3, LaneStep(p, L.StorePublished));
    ReachableStep(s, PublishRecord(p));
    ReachableStep(s1, WriteCell(p));
    ReachableStep(s2, LaneStep(p, L.AdvanceWrite));
    ReachableStep(s3, LaneStep(p, L.StorePublished));
    ReachableStep(s4, LaneStep(p, L.ClearFlag));
  }

  /** The handle of the record installed in the cell. */
  function HandleOf(p: nat, c: nat, cell: Cell): L.RecordHandle
    requires cell.stored.Some?
  {
    L.RecordHandle(c, p, cell.generation, cell.stored.value.serialized, cell.stored.value.charge)
  }

  lemma PublishEffect(s: State, p: nat, c: nat, generation: nat, size: Size)
    requires Reachable(s) && At(s, p, c, Installed(generation, size))
    ensures c < |s.cells| && s.cells[c].stored.Some?
    ensures L.Enabled(s.lanes, L.AllocateSequence(p, HandleOf(p, c, s.cells[c])))
    ensures var t := Step(s, PublishRecord(p));
            SameTables(s, t) && t.lanes == L.Step(s.lanes, L.AllocateSequence(p, HandleOf(p, c, s.cells[c])))
  {
    AtStageCell(s, p, c, Installed(generation, size));
    ReachableInv(s);
    HandleAccepted(s, p);
    hide Inv, Reachable, L.Step, L.Enabled;
  }

  lemma WriteEffect(s: State, p: nat)
    ensures SameTables(s, Step(s, WriteCell(p))) && Step(s, WriteCell(p)).lanes == L.Step(s.lanes, L.WriteCell(p))
    ensures Step(s, WriteCell(p)).stages == s.stages
    ensures |Step(s, WriteCell(p)).lanes.lanes| == |s.lanes.lanes|
  {}

  lemma HandOverEffect(s: State, p: nat, c: nat, generation: nat, size: Size)
    requires Reachable(s) && At(s, p, c, Installed(generation, size))
    ensures c < |s.cells| && s.cells[c].stored.Some? && L.IsValid(HandleOf(p, c, s.cells[c]))
    ensures SameTables(s, HandedOver(s, p)) &&
            HandedOver(s, p).lanes == L.Published(s.lanes, p, HandleOf(p, c, s.cells[c]))
  {
    Shape(s);
    PublishEffect(s, p, c, generation, size);
    ValidHandle(s, p, c);
    hide Reachable, Step, L.Step, L.Enabled, At;
    var s1 := Step(s, PublishRecord(p));
    var s2 := Step(s1, WriteCell(p));
    var s3 := Step(s2, LaneStep(p, L.AdvanceWrite));
    var s4 := Step(s3, LaneStep(p, L.StorePublished));
    L.HistoryGrows(s.lanes, L.AllocateSequence(p, HandleOf(p, c, s.cells[c])));
    WriteEffect(s1, p);
    LaneEffect(s2, p, L.AdvanceWrite);
    LaneEffect(s3, p, L.StorePublished);
    LaneEffect(s4, p, L.ClearFlag);
  }

  lemma ValidHandle(s: State, p: nat, c: nat)
    requires c < |s.cells| && s.cells[c].stored.Some?
    requires L.Enabled(s.lanes, L.AllocateSequence(p, HandleOf(p, c, s.cells[c])))
    ensures L.IsValid(HandleOf(p, c, s.cells[c])) && p < |s.lanes.lanes|
  {}

  /** One record of the given size was admitted, last, on lane `p`. */
  predicate Admits(s: L.State, s': L.State, p: nat, serialized: nat) {
    && |s'.admissions| == |s.admissions| + 1 && s.admissions <= s'.admissions && s'.accepted == s.accepted + 1
    && s'.admissions[|s.admissions|].lane == p
    && s'.admissions[|s.admissions|].record.serializedBytes == serialized
    && s'.admissions[|s.admissions|].record.chargeBytes == AccountingCharge(serialized)
  }

  lemma HandOverAdmits(s: State, p: nat, c: nat, generation: nat, size: Size)
    requires Reachable(s) && At(s, p, c, Installed(generation, size))
    ensures c < |s.cells| && s.cells[c].stored.Some?
    ensures Admits(s.lanes, L.Published(s.lanes, p, HandleOf(p, c, s.cells[c])), p, s.cells[c].stored.value.serialized)
  {
    AtStageCell(s, p, c, Installed(generation, size));
    PublishEffect(s, p, c, generation, size);
    LanePlaced(s, p);
    hide Reachable, L.Published, L.PositionsOk;
    L.PublishedEffect(s.lanes, p, HandleOf(p, c, s.cells[c]));
  }

  lemma LanePlaced(s: State, p: nat)
    requires Reachable(s) && p < |s.lanes.lanes|
    ensures L.PositionsOk(s.lanes.lanes[p]) && s.lanes.lanes[p].offset + s.lanes.lanes[p].capacity <= |s.lanes.cells|
    ensures s.lanes.accepted == |s.lanes.admissions|
  {
    Shape(s);
    ReachableInv(s);
    LaneAt(s, p);
    hide CellsOk, EntriesOk, ControlsOk, ScanOk, L.LaneOk, L.PositionsOk;
  }

  /* --- Consuming ----------------------------------------------------------------------------------- */

  /** The worker is between calls. */
  predicate AtRest(s: State) {
    s.lanes.consumer.Resting? && !s.lanes.claimActive && s.taking.Untouched? && (s.scan.NoScan? || s.scan.Answered?)
  }

  lemma ConsumeEffect(s: State, m: L.ConsumerMove)
    requires (s.scan.NoScan? || s.scan.Answered?) && s.taking.Untouched? && !m.Cancel?
    ensures Step(s, Consume(m)) == s.(lanes := L.Step(s.lanes, L.Consume(m)))
  {
    hide L.Consumed, L.CanConsume;
  }

  function ScanningAt(s: State, p: nat): State {
    s.(lanes := s.lanes.(consumer := L.Scanning(p, L.LaterBefore(s.lanes, p), L.HasHead(s.lanes, 0, s.lanes.next))))
  }

  /** The scan for the next record passes the lanes whose head is another. */
  lemma {:induction false} ScanReaches(s: State, p: nat)
    requires Reachable(s) && AtRest(s) && p <= |s.lanes.lanes|
    requires forall q :: 0 <= q < p ==> !L.HeadIs(s.lanes, q, s.lanes.next)
    ensures Reachable(ScanningAt(s, p))
  {
    hide Reachable, Step, L.HeadIs, L.HasHead, L.LaterBefore, L.PositionsOk;
    if p == 0 {
      ConsumeEffect(s, L.BeginScan);
      BeginEffect(s.lanes);
      ReachableStep(s, Consume(L.BeginScan));
    } else {
      ScanReaches(s, p - 1);
      var t := ScanningAt(s, p - 1);
      LanePlaced(s, p - 1);
      L.SkipLane(s.lanes, p - 1, L.HasHead(s.lanes, 0, s.lanes.next));
      ConsumeEffect(t, L.ScanLane);
      ReachableStep(t, Consume(L.ScanLane));
      ConsumeEffect(Step(t, Consume(L.ScanLane)), L.InspectHead);
      ReachableStep(Step(t, Consume(L.ScanLane)), Consume(L.InspectHead));
    }
  }

  lemma BeginEffect(s: L.State)
    requires s.consumer.Resting? && !s.claimActive
    ensures L.Step(s, L.Consume(L.BeginScan)) ==
            s.(consumer := L.Scanning(0, L.LaterBefore(s, 0), L.HasHead(s, 0, s.next)))
  {
    assert !L.LaterBefore(s, 0);
  }

  function Taken(s: State, p: nat, read: nat, e: L.Envelope): State {
    s.(lanes := s.lanes.(consumer := L.Holding(p, read, e), claimActive := true))
  }

  /** Only the lane the next sequence was admitted on has it at its head. */
  lemma HeadUnique(s: L.State, p: nat, q: nat)
    requires L.Inv(s) && p < |s.lanes| && q < |s.lanes| && L.HeadIs(s, p, s.next) && L.HeadIs(s, q, s.next)
    ensures p == q
  {
    L.HeadAdmission(s, p);
    L.HeadAdmission(s, q);
  }

  lemma TakeReachable(s: State, p: nat)
    requires Reachable(s) && AtRest(s) && p < |s.lanes.lanes| && L.HeadIs(s.lanes, p, s.lanes.next)
    ensures var l := s.lanes.lanes[p];
            && l.capacity > 0 && L.CellOf(l, l.read) < |s.lanes.cells|
            && Reachable(Taken(s, p, l.read, s.lanes.cells[L.CellOf(l, l.read)]))
  {
    hide Inv, Reachable, Step, L.LaterBefore, L.HasHead, L.Inv;
    ReachableInv(s);
    LanesInv(s);
    forall q | 0 <= q < p
      ensures !L.HeadIs(s.lanes, q, s.lanes.next)
    {
      if L.HeadIs(s.lanes, q, s.lanes.next) {
        HeadUnique(s.lanes, q, p);
      }
    }
    ScanReaches(s, p);
    var t := ScanningAt(s, p);
    ConsumeEffect(t, L.ScanLane);
    ReachableStep(t, Consume(L.ScanLane));
    var u := Step(t, Consume(L.ScanLane));
    ConsumeEffect(u, L.InspectHead);
    ReachableStep(u, Consume(L.InspectHead));
  }

  lemma LanesInv(s: State)
    requires Inv(s)
    ensures L.Inv(s.lanes)
  {
    hide L.Inv, CellsOk, EntriesOk, ControlsOk, ScanOk;
  }

  /** A taken record is its lane's head. */
  lemma HeldIsHead(s: L.State)
    requires L.Reachable(s) && s.consumer.Holding?
    ensures var c := s.consumer;
            && c.lane < |s.lanes| && c.read == s.lanes[c.lane].read && s.lanes[c.lane].capacity > 0
            && L.CellOf(s.lanes[c.lane], c.read) < |s.cells|
            && c.envelope == s.cells[L.CellOf(s.lanes[c.lane], c.read)]
            && s.next < |s.admissions| && c.envelope == L.Envelope(s.admissions[s.next].record, s.next)
  {
    L.ReachableInv(s);
    L.HeadAdmission(s, s.consumer.lane);
    L.CellHolds(s, s.consumer.lane, s.consumer.read);
  }

  /** The rest of the call: the record is checked, its cell emptied and its sequence acknowledged. */
  lemma TakenEffect(s: State)
    requires Reachable(s) && s.lanes.consumer.Holding? && s.taking.Untouched?
    ensures ProducerKernel.Valid(s)
    ensures var c := s.lanes.consumer.envelope.record.slotIndex; var u := Step(Step(s, Check), Clear);
            && c < |s.cells| && u.lanes == s.lanes && u.cells == s.cells[c := CleanCell(s.cells[c])]
            && u.controls == s.controls && u.open == s.open && u.maximum == s.maximum && u.scan == s.scan
            && u.taking.Cleared? && u.stages == s.stages
    ensures var u := Step(Step(s, Check), Clear); var t := Step(u, Acknowledge);
            && t == u.(lanes := L.Step(s.lanes, L.Acknowledge), taking := Untouched)
  {
    hide Inv, Reachable, L.Inv;
    ReachableInv(s);
    ValidationPasses(s);
    HeldCell(s);
  }

  /* --- Registrations ------------------------------------------------------------------------------- */

  /** Everything but the controls is as it was. */
  predicate SameCells(s: State, s': State) {
    && s'.lanes == s.lanes && s'.cells == s.cells && s'.stages == s.stages && s'.open == s.open
    && s'.maximum == s.maximum && s'.taking == s.taking && s'.scan == s.scan
  }

  lemma ControlEffect(s: State, p: nat, m: ControlMove)
    requires p < |s.controls|
    ensures SameCells(s, Step(s, ControlStep(p, m))) && Drained(Step(s, ControlStep(p, m)), p) == Drained(s, p)
    ensures Step(s, ControlStep(p, m)).controls ==
            s.controls[p := Controlled(s.controls[p], s.open, m)]
  {
    hide Controlled;
  }

  /** The lanes' drained test, read as the code reads it. */
  lemma LaneDrained(s: State, p: nat)
    requires Reachable(s) && p < |s.lanes.lanes|
    ensures Drained(s, p) == L.Drained(s.lanes, p)
  {
    LanePlaced(s, p);
  }

  /** The lane is drained and its slot free, or about to be. */
  predicate Settled(s: State, p: nat, reconciled: bool) {
    p < |s.controls| && Drained(s, p) && (s.controls[p].state.Free? || (s.controls[p].state.Retiring? && reconciled))
  }

  lemma SameDrained(s: State, s': State, p: nat)
    requires SameCells(s, s')
    ensures Drained(s', p) == Drained(s, p)
  {}

  lemma SettledConsumed(s: State, reconciled: seq<bool>)
    requires Reachable(s) && !s.open && |reconciled| == |s.controls|
    requires forall p :: 0 <= p < |s.controls| ==> Settled(s, p, reconciled[p])
    ensures s.lanes.accepted == s.lanes.next
  {
    hide Inv, Reachable;
    ReachableInv(s);
    Shape(s);
    forall p | 0 <= p < |s.lanes.lanes|
      ensures Quiet(s, p)
    {
      assert Settled(s, p, reconciled[p]);
      LaneAt(s, p);
      PublishingHeld(s, p);
    }
    QuietMeansConsumed(s);
  }

  /** A slot after TryFinishRetirement: a retired one is freed under its next generation once its lane is drained
      and its credit reconciled. */
  function Retired(c: Control, drained: bool, reconciled: bool): Control {
    if drained && c.state.Retiring? && reconciled then c.(state := Free, generation := c.generation + 1) else c
  }

  /** The record admitted next was taken out of its cell, which is clean again, and acknowledged. */
  predicate Consumes(s: State, s': State, e: L.Envelope) {
    && s.lanes.next < |s.lanes.admissions|
    && e == L.Envelope(s.lanes.admissions[s.lanes.next].record, s.lanes.next)
    && s'.lanes.acknowledged == s.lanes.acknowledged + [e] && s'.lanes.admissions == s.lanes.admissions
    && e.record.slotIndex < |s.cells| == |s'.cells| && Clean(s'.cells[e.record.slotIndex])
    && s'.cells == s.cells[e.record.slotIndex := s'.cells[e.record.slotIndex]]
    && s.cells[e.record.slotIndex].stored == Some(Size(e.record.serializedBytes, e.record.chargeBytes))
  }

  /** Slot `p` carries a completed registration of this generation. */
  predicate Registered(controls: seq<Control>, p: nat, generation: nat) {
    p < |controls| && controls[p].generation == generation && controls[p].state.Active? && !controls[p].registering
  }

  class Kernel {
    const lanes: L.Lanes
    const cells: array<Cell>
    const controls: array<Control>
    const maximum: nat
    var open: bool
    ghost var model: State

    ghost predicate Valid()
      reads this, cells, controls, lanes, lanes.lanes, lanes.cells
    {
      && lanes.Valid() && Reachable(model) && model.lanes == lanes.model
      && model.cells == cells[..] && model.controls == controls[..]
      && model.open == open && model.maximum == maximum && controls.Length == lanes.lanes.Length
    }

    ghost method Track(a: Action)
      requires Reachable(model)
      modifies this`model
      ensures model == Step(old(model), a) && Reachable(model)
    {
      hide Step, Reachable;
      ReachableStep(model, a);
      model := Step(model, a);
    }

    constructor (producerSlots: nat, ingressCells: nat, maximumRecordBytes: nat)
      requires 0 < producerSlots <= L.MAXIMUM_PRODUCER_SLOTS
      requires producerSlots <= ingressCells <= L.MAXIMUM_INGRESS_CELLS
      requires 128 <= maximumRecordBytes <= MAXIMUM_RECORD_BYTES && maximumRecordBytes % QUANTUM == 0
      ensures Valid() && Start(model) && open && maximum == maximumRecordBytes && controls.Length == producerSlots
    {
      var table := new L.Lanes(producerSlots, ingressCells);
      var slots := new Cell[ingressCells](_ => Cell(Reset, None, None, 0));
      var registrations := new Control[producerSlots](_ => Control(Free, 1, false));
      lanes, cells, controls, maximum, open := table, slots, registrations, maximumRecordBytes, true;
      model := State(table.model, maximumRecordBytes, true, registrations[..], slots[..],
                     seq(producerSlots, _ => Fresh), Untouched, NoScan, seq(producerSlots, _ => 0), 0);
      new;
      assert Run(model, []) == model;
    }

    /** Another thread holds the lane's flag, or the lane is full. */
    predicate Busy(p: nat)
      requires p < lanes.lanes.Length
      reads this, lanes, lanes.lanes
    {
      lanes.lanes[p].publishing || lanes.lanes[p].published - lanes.lanes[p].read == lanes.lanes[p].capacity
    }

    /** Takes the lane's next cell, if its flag is free and it is not full. */
    method ClaimLane(p: nat) returns (claim: L.PublicationClaim)
      requires Valid() && p < controls.Length
      modifies this`model, lanes`model, lanes.lanes
      ensures Valid() && SameTables(old(model), model)
      ensures claim.Claim? ==> lanes.Live(claim) && claim.producer == p && At(model, p, claim.cellIndex, Fresh)
      ensures claim.NoClaim? == old(Busy(p))
      ensures lanes.lanes[..] == if claim.NoClaim? then old(lanes.lanes[..])
                                 else old(lanes.lanes[..])[p := old(lanes.lanes[p]).(publishing := true)]
      ensures claim.Claim? ==> !old(lanes.lanes[p]).publishing
      ensures claim.Claim? ==> claim.cellIndex < cells.Length
      ensures model.lanes.admissions == old(model).lanes.admissions && model.lanes.accepted == old(model).lanes.accepted
    {
      hide Reachable, Step, L.Reachable, L.Step, L.ClaimAttempt, Attempt, At;
      Shape(model);
      if !lanes.lanes[p].publishing {
        AttemptEffect(model, p);
      }
      claim := lanes.TryClaimPublication(p);
      if !old(lanes.lanes[p].publishing) {
        ReachableAttempt(model, p);
        model := Attempt(model, p);
        if claim.NoClaim? {
          Track(LaneStep(p, L.ClearFlag));
        }
      }
    }

    /** Gives the claimed cell back. */
    method Withdraw(claim: L.PublicationClaim)
      requires Valid() && lanes.Live(claim) && At(model, claim.producer, claim.cellIndex, Refused)
      modifies this`model, lanes`model, lanes.lanes
      ensures Valid() && SameTables(old(model), model) && model.lanes.admissions == old(model).lanes.admissions
      ensures claim.producer < lanes.lanes.Length
      ensures lanes.lanes[..] == old(lanes.lanes[..])[claim.producer :=
                old(lanes.lanes[claim.producer]).(publishing := false)]
    {
      hide Reachable, Step, L.Reachable, L.Step;
      GiveUpEffect(model, claim.producer, claim.cellIndex);
      lanes.AbandonClaim(claim);
      Track(GiveUp(claim.producer));
    }

    predicate IsActive(p: nat, generation: nat)
      requires p < controls.Length
      reads this, controls
    {
      controls[p].state.Active? && controls[p].generation == generation
    }

    /** The checks after the claim, and the reservation of the largest record's credit. */
    method Admit(claim: L.PublicationClaim, generation: nat, granted: bool) returns (outcome: PublishOutcome)
      requires Valid() && claim.Claim? && lanes.Live(claim) && At(model, claim.producer, claim.cellIndex, Fresh)
      requires claim.producer < controls.Length
      modifies this`model
      ensures Valid() && SameTables(old(model), model) && model.lanes == old(model).lanes && lanes.Live(claim)
      ensures outcome == (if !open || !IsActive(claim.producer, generation) then NoProducerSlot
                          else if !granted then BudgetExhausted else Accepted)
      ensures At(model, claim.producer, claim.cellIndex,
                 if outcome.Accepted? then Reserved(generation) else Refused)
    {
      hide Reachable, Step, L.Reachable, L.Lanes.Valid, At, L.Lanes.Live;
      var p, c := claim.producer, claim.cellIndex;
      AtCell(model, p, c, Fresh);
      AdvanceEffect(model, p, c, Fresh, CheckAdmission);
      Track(ProducerStep(p, CheckAdmission));
      if !open {
        return NoProducerSlot;
      }
      AdvanceEffect(model, p, c, SawOpen, CheckState);
      Track(ProducerStep(p, CheckState));
      if !controls[p].state.Active? {
        return NoProducerSlot;
      }
      AdvanceEffect(model, p, c, SawActive, CheckGeneration(generation));
      Track(ProducerStep(p, CheckGeneration(generation)));
      if controls[p].generation != generation {
        return NoProducerSlot;
      }
      AdvanceEffect(model, p, c, Admitted(generation), ReserveCredit(granted));
      Track(ProducerStep(p, ReserveCredit(granted)));
      return if granted then Accepted else BudgetExhausted;
    }

    /** Fills the claimed cell: begins its record slot, lets the builder write, stores the record and the
        ownership of its bytes. A call that gives up leaves every cell as it was. */
    method Build(claim: L.PublicationClaim, generation: nat, fits: bool, complete: bool, result: Option<WrittenRecord>)
      returns (size: Option<Size>)
      requires Valid() && claim.Claim? && lanes.Live(claim)
      requires At(model, claim.producer, claim.cellIndex, Reserved(generation)) && claim.cellIndex < cells.Length
      requires result.Some? ==> WriterPromises(result.value, maximum)
      modifies this`model, cells
      ensures Valid() && model.lanes == old(model).lanes && lanes.Live(claim)
      ensures model.controls == old(model).controls && model.open == old(model).open
      ensures size == if fits && complete && result.Some?
                      then Some(Size(result.value.record.serializedBytes, result.value.record.chargeBytes)) else None
      ensures size.None? ==>
                cells[..] == old(cells[..]) && At(model, claim.producer, claim.cellIndex, Refused)
      ensures size.Some? ==>
                && At(model, claim.producer, claim.cellIndex, Installed(generation, size.value))
                && cells[..] == old(cells[..])[claim.cellIndex :=
                     Cell(Published, size, size, old(cells[claim.cellIndex]).generation + 1)]
    {
      hide Reachable, Step, L.Reachable, L.Lanes.Valid, At, L.Lanes.Live, WriterPromises;
      var p, c := claim.producer, claim.cellIndex;
      ghost var before := cells[..];
      AtStageCell(model, p, c, Reserved(generation));
      AdvanceEffect(model, p, c, Reserved(generation), BeginRecord(fits));
      Track(ProducerStep(p, BeginRecord(fits)));
      if !fits {
        return None;
      }
      cells[c] := cells[c].(slot := Building);
      assert cells[..] == before[c := cells[c]];
      if !complete || result.None? {
        if !complete {
          AdvanceEffect(model, p, c, Writing(generation), BuildRecord(false));
          Track(ProducerStep(p, BuildRecord(false)));
        } else {
          AdvanceEffect(model, p, c, Writing(generation), FinishRecord(None));
          Track(ProducerStep(p, FinishRecord(None)));
        }
        cells[c] := cells[c].(slot := Reset);
        assert cells[..] == before;
        return None;
      }
      size := Some(Size(result.value.record.serializedBytes, result.value.record.chargeBytes));
      StoredRecordFits(result.value, maximum);
      if size.value.serialized > maximum || size.value.charge > maximum {
        assert false;
      }
      AdvanceEffect(model, p, c, Writing(generation), FinishRecord(result));
      Track(ProducerStep(p, FinishRecord(result)));
      Install(claim, generation, result.value, before);
    }

    /** The last part of Build: the reservation is committed, which never fails, and the cell filled. */
    method Install(claim: L.PublicationClaim, generation: nat, written: WrittenRecord, ghost before: seq<Cell>)
      requires lanes.Valid() && Reachable(model) && model.lanes == lanes.model && model.controls == controls[..]
      requires model.open == open && model.maximum == maximum && controls.Length == lanes.lanes.Length
      requires claim.Claim? && claim.cellIndex < cells.Length == |before|
      requires At(model, claim.producer, claim.cellIndex,
                  Finished(generation, Size(written.record.serializedBytes, written.record.chargeBytes)))
      requires WriterPromises(written, maximum)
      requires cells[..] == before[claim.cellIndex := before[claim.cellIndex].(slot := Building)]
      requires model.cells == before[claim.cellIndex := before[claim.cellIndex].(slot := Published)]
      modifies this`model, cells
      ensures Valid() && model.lanes == old(model).lanes
      ensures model.controls == old(model).controls && model.open == old(model).open
      ensures At(model, claim.producer, claim.cellIndex,
                 Installed(generation, Size(written.record.serializedBytes, written.record.chargeBytes)))
      ensures var size := Size(written.record.serializedBytes, written.record.chargeBytes);
              cells[..] == before[claim.cellIndex :=
                Cell(Published, Some(size), Some(size), before[claim.cellIndex].generation + 1)]
    {
      hide Reachable, Step, L.Reachable, L.Lanes.Valid, At, WriterPromises;
      var p, c := claim.producer, claim.cellIndex;
      var size := Size(written.record.serializedBytes, written.record.chargeBytes);
      Shape(model);
      StoredRecordFits(written, maximum);
      ChargeMonotone(size.serialized, maximum);
      if !CreditLedger.CommitFits(maximum, AccountingCharge(maximum), size.serialized) ||
         AccountingCharge(size.serialized) != size.charge {
        assert false;
      }
      AdvanceEffect(model, p, c, Finished(generation, size), CommitRecord);
      Track(ProducerStep(p, CommitRecord));
      cells[c] := Cell(Published, Some(size), Some(size), cells[c].generation + 1);
      assert cells[..] == before[c := cells[c]];
    }

    /** Publishes the installed record under the next admission sequence; the lane never refuses it. */
    method HandOver(claim: L.PublicationClaim, ghost generation: nat, ghost size: Size) returns (sequence: nat)
      requires Valid() && claim.Claim? && lanes.Live(claim) && claim.cellIndex < cells.Length
      requires At(model, claim.producer, claim.cellIndex, Installed(generation, size))
      modifies this`model, lanes`model, lanes`accepted, lanes.lanes, lanes.cells
      ensures Valid() && SameTables(old(model), model)
      ensures sequence == old(model).lanes.accepted && cells[claim.cellIndex].stored.Some?
      ensures model.lanes == L.Published(old(model).lanes, claim.producer,
                                         HandleOf(claim.producer, claim.cellIndex, cells[claim.cellIndex]))
      ensures Admits(old(model).lanes, model.lanes, claim.producer, cells[claim.cellIndex].stored.value.serialized)
    {
      hide Reachable, Step, L.Reachable, L.Step, L.Published, At, L.IsValid, Admits;
      var p, c := claim.producer, claim.cellIndex;
      HandOverAdmits(model, p, c, generation, size);
      HandOverEffect(model, p, c, generation, size);
      HandedOverReachable(model, p);
      var result := lanes.Publish(claim, HandleOf(p, c, cells[c]));
      model := HandedOver(model, p);
      sequence := result.value;
    }

    /** Publishes one record. It is accepted exactly when every check passes and the builder completes; then
        its record is the last admission, and otherwise nothing is admitted. */
    method TryPublishSlot(p: nat, generation: nat, granted: bool, fits: bool, complete: bool,
                          result: Option<WrittenRecord>)
      returns (outcome: PublishOutcome, sequence: nat)
      requires Valid() && p < controls.Length
      requires result.Some? ==> WriterPromises(result.value, maximum)
      modifies this`model, lanes`model, lanes`accepted, lanes.lanes, lanes.cells, cells
      ensures Valid()
      ensures outcome == (if !IsActive(p, generation) then NoProducerSlot
                          else if old(Busy(p)) then LaneFull
                          else if !open then NoProducerSlot
                          else if !granted then BudgetExhausted
                          else if !(fits && complete && result.Some?) then InvalidRecord
                          else Accepted)
      ensures outcome.Accepted? ==>
                Admits(old(model).lanes, model.lanes, p, result.value.record.serializedBytes) &&
                sequence == old(model).lanes.accepted
      ensures !outcome.Accepted? ==>
                && cells[..] == old(cells[..]) && model.lanes.admissions == old(model).lanes.admissions
                && lanes.lanes[..] == old(lanes.lanes[..])
    {
      hide Reachable, Step, L.Reachable, L.Step, L.Published, At, L.Lanes.Valid, L.Lanes.Live, L.ClaimAttempt,
           WriterPromises;
      sequence := 0;
      if !IsActive(p, generation) {
        return NoProducerSlot, 0;
      }
      var claim := ClaimLane(p);
      if claim.NoClaim? {
        return LaneFull, 0;
      }
      outcome := Admit(claim, generation, granted);
      if !outcome.Accepted? {
        Withdraw(claim);
        return;
      }
      var size := Build(claim, generation, fits, complete, result);
      if size.None? {
        Withdraw(claim);
        return InvalidRecord, 0;
      }
      sequence := HandOver(claim, generation, size.value);
    }

    /** Consumes the next record, if it has been published: it is the record admitted under that sequence, it
        passes validation, its cell is left clean, and it is acknowledged. */
    method TryConsume(reconciled: bool) returns (status: ConsumeStatus)
      requires Valid() && AtRest(model)
      modifies this`model, lanes, lanes.lanes, cells, controls
      ensures Valid() && AtRest(model)
      ensures status.Record? <==> L.HasHead(old(model).lanes, 0, old(model).lanes.next)
      ensures !status.Record? ==>
                && model == old(model) && cells[..] == old(cells[..]) && controls[..] == old(controls[..])
                && (status.Empty? <==> old(model).lanes.accepted == old(model).lanes.next)
      ensures status.Record? ==> Consumes(old(model), model, status.envelope)
      ensures status.Record? ==>
                var p := status.envelope.record.producerIndex;
                && p < controls.Length
                && controls[..] == old(controls[..])[p := Retired(old(controls[..])[p], Drained(model, p), reconciled)]
    {
      hide Reachable, Step, L.Reachable, L.HeadIs, L.HasHead;
      var claim := lanes.TryClaimConsumption();
      if claim.NoRecord? {
        return if claim.consumption.Pending? then Pending else Empty;
      }
      HeldIsHead(lanes.model);
      L.HeadKept(model.lanes, lanes.model, claim.producer);
      TakeReachable(model, claim.producer);
      model := Taken(model, claim.producer, claim.readPosition, claim.envelope);
      TakenEffect(model);
      Track(Check);
      Track(Clear);
      var c := claim.envelope.record.slotIndex;
      cells[c] := CleanCell(cells[c]);
      lanes.AcknowledgeClaim(claim);
      Track(Acknowledge);
      TryFinishRetirement(claim.producer, reconciled);
      return Record(claim.envelope);
    }

    /** One store to a slot's state or generation. */
    method Move(p: nat, m: ControlMove)
      requires Valid() && p < controls.Length
      modifies this`model, controls
      ensures Valid() && SameCells(old(model), model)
      ensures controls[..] == old(controls[..])[p := Controlled(old(controls[p]), open, m)]
    {
      hide Reachable, L.Reachable, Step, Controlled;
      ghost var before := controls[..];
      ControlEffect(model, p, m);
      Track(ControlStep(p, m));
      controls[p] := Controlled(controls[p], open, m);
      assert controls[..] == before[p := controls[p]];
    }

    /** A slot whose registration ended becomes free under its next generation once its lane is drained and
        its credit reconciled. */
    method TryFinishRetirement(p: nat, reconciled: bool)
      requires Valid()
      modifies this`model, controls
      ensures Valid() && SameCells(old(model), model)
      ensures p >= controls.Length ==> model == old(model)
      ensures p < controls.Length ==>
                controls[..] == old(controls[..])[p := Retired(old(controls[p]), Drained(old(model), p), reconciled)]
    {
      hide Reachable, L.Reachable, Step;
      if p >= controls.Length {
        return;
      }
      Shape(model);
      LaneDrained(model, p);
      var drained := lanes.IsProducerDrained(p);
      if !drained || !controls[p].state.Retiring? {
        return;
      }
      Move(p, BeginReconcile);
      if !reconciled {
        Move(p, RefuseReconcile);
        return;
      }
      Move(p, AdvanceGeneration);
      Move(p, ReleaseSlot);
    }

    /** Registers on the first free slot; a slot taken while admission is closed is given back. */
    method TryRegisterProducer(reconciled: bool) returns (slot: Option<(nat, nat)>)
      requires Valid()
      modifies this`model, controls
      ensures Valid() && SameCells(old(model), model)
      ensures slot.Some? ==>
                && open && slot.value.0 < controls.Length && old(controls[..])[slot.value.0].state.Free?
                && controls[slot.value.0].generation == slot.value.1
                && controls[..] == old(controls[..])[slot.value.0 :=
                     old(controls[..])[slot.value.0].(state := Active, registering := false)]
                && forall q :: 0 <= q < slot.value.0 ==> !old(controls[..])[q].state.Free?
      ensures slot.None? ==>
                && controls[..] == old(controls[..])
                && (!open || forall q :: 0 <= q < controls.Length ==> !old(controls[..])[q].state.Free?)
    {
      hide Reachable, L.Reachable, Step;
      if !open {
        return None;
      }
      Shape(model);
      var p := 0;
      while p < controls.Length
        invariant p <= controls.Length && Valid() && model == old(model) && controls[..] == old(controls[..])
        invariant forall q :: 0 <= q < p ==> !controls[q].state.Free?
      {
        if controls[p].state.Free? {
          var registered := ClaimSlot(p, reconciled);
          slot := None;
          if registered {
            slot := Some((p, controls[p].generation));
          }
          return;
        }
        p := p + 1;
      }
      return None;
    }

    /** Takes a free slot and confirms that admission is still open; otherwise the slot is retired again. */
    method ClaimSlot(p: nat, reconciled: bool) returns (registered: bool)
      requires Valid() && p < controls.Length && controls[p].state.Free?
      modifies this`model, controls
      ensures Valid() && SameCells(old(model), model)
      ensures registered == open
      ensures controls[..] == old(controls[..])[p :=
                if open then old(controls[p]).(state := Active, registering := false)
                else if Drained(old(model), p) && reconciled
                then old(controls[p]).(generation := old(controls[p]).generation + 1, registering := false)
                else old(controls[p]).(state := Retiring, registering := false)]
    {
      hide Reachable, L.Reachable, Step, Drained;
      Move(p, Register);
      Move(p, ConfirmRegistration);
      SameDrained(old(model), model, p);
      if !open {
        TryFinishRetirement(p, reconciled);
      }
      return open;
    }

    /** Ends a registration of the given generation; a stale one changes nothing. */
    method RetireProducer(p: nat, generation: nat, reconciled: bool)
      requires Valid()
      modifies this`model, controls
      ensures Valid() && SameCells(old(model), model)
      ensures Registered(old(controls[..]), p, generation) ==>
                controls[..] == old(controls[..])[p :=
                  if Drained(old(model), p) && reconciled
                  then old(controls[p]).(state := Free, generation := generation + 1)
                  else old(controls[p]).(state := Retiring)]
      ensures !Registered(old(controls[..]), p, generation) ==> model == old(model) && controls[..] == old(controls[..])
    {
      hide Reachable, L.Reachable, Step, Drained;
      if p < controls.Length && controls[p].generation == generation && controls[p].state.Active? &&
         !controls[p].registering {
        Move(p, Retire(generation));
        SameDrained(old(model), model, p);
        TryFinishRetirement(p, reconciled);
      }
    }

    method CloseAdmission()
      requires Valid()
      modifies this`model, this`open
      ensures Valid() && !open && model == Step(old(model), Close)
    {
      hide Reachable, L.Reachable;
      Track(Close);
      open := false;
    }

    /** Finishes what retirements it can and tells whether every slot is free and drained. Once admission is
        closed, an answer of true means that everything accepted has been consumed. */
    method IsQuiescent(reconciled: seq<bool>) returns (quiescent: bool)
      requires Valid() && |reconciled| == controls.Length
      modifies this`model, controls
      ensures Valid() && SameCells(old(model), model)
      ensures quiescent <==> forall p :: 0 <= p < controls.Length ==> Settled(old(model), p, reconciled[p])
      ensures quiescent && !open ==> model.lanes.accepted == model.lanes.next
    {
      hide Reachable, L.Reachable, Step, Drained;
      Shape(model);
      quiescent := true;
      var p := 0;
      while p < controls.Length
        invariant p <= controls.Length && Valid() && SameCells(old(model), model)
        invariant forall q :: p <= q < controls.Length ==> controls[q] == old(controls[..])[q]
        invariant quiescent <==> forall q :: 0 <= q < p ==> Settled(old(model), q, reconciled[q])
      {
        SameDrained(old(model), model, p);
        LaneDrained(model, p);
        TryFinishRetirement(p, reconciled[p]);
        var drained := lanes.IsProducerDrained(p);
        quiescent := quiescent && drained && controls[p].state.Free?;
        p := p + 1;
      }
      if quiescent && !open {
        SettledConsumed(old(model), reconciled);
      }
    }
  }
}
