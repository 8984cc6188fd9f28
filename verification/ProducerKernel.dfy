/** The producer kernel (src/producer/producer_kernel.cpp) on top of the lanes.

Each ingress cell has a record slot, a stored record, the ownership of its bytes and a generation; each
producer slot has a registration state and a generation. A publishing thread works on the cell its lane
claim gives it; the consumer takes a record, checks it, clears the cell and acknowledges. The lanes take
their own steps (module ProducerLanes); the steps here are the kernel's accesses in between.

A retired slot may be reconciled, advanced and freed at any time here, whatever the state of its lane: nothing
in this module depends on when that happens. Module Retirement says when it does.
*/
module ProducerKernel {
  import opened Accounting
  import opened Bytes
  import CreditLedger
  import L = ProducerLanes
  import opened Options
  import R = RecordStorage
  import opened RingArithmetic

  datatype SlotState = Free | Active | Retiring | Reconciling

  datatype Control = Control(state: SlotState, generation: nat, registering: bool)

  datatype RecordSlot = Reset | Building | Published

  /** Serialized bytes and accounting charge. */
  datatype Size = Size(serialized: nat, charge: nat)

  datatype Cell = Cell(slot: RecordSlot, stored: Option<Size>, owned: Option<Size>, generation: nat)

  /** How far the holder of a lane's claim has come in TryPublishSlot. */
  datatype Stage =
    | Fresh                                     // claim taken, nothing checked
    | SawOpen                                   // admission was open
    | SawActive                                 // the slot was active
    | Admitted(generation: nat)                 // and of the caller's generation
    | Reserved(generation: nat)                 // credit reserved
    | Writing(generation: nat)                  // record slot begun
    | Finished(generation: nat, size: Size)     // record slot published
    | Installed(generation: nat, size: Size)    // record and ownership stored in the cell
    | Publishing(generation: nat)               // sequence allocated
    | Refused                                   // giving up

  /** What the consumer has done with the record it holds. */
  datatype Taking = Untouched | Checked | Cleared

  /** The worker's progress through IsQuiescent. `closed` tells that admission was closed when it began. */
  datatype Scan =
    | NoScan
    | AtSlot(slot: nat, quiet: bool, closed: bool)
    | SawFlag(slot: nat, quiet: bool, closed: bool)
    | SawEmpty(slot: nat, quiet: bool, closed: bool)
    | Answered(quiet: bool, closed: bool)

  /** `late` counts, per lane, the sequences allocated after admission closed; `faults` counts every
      time one of the kernel's defensive branches is taken. Both are history variables. */
  datatype State = State(
    lanes: L.State, maximum: nat, open: bool, controls: seq<Control>, cells: seq<Cell>, stages: seq<Stage>,
    taking: Taking, scan: Scan, late: seq<nat>, faults: nat)

  /** What RecordWriter::Publish returned, with the buffer it left and what the builder had put in. */
  datatype WrittenRecord = WrittenRecord(storage: seq<byte>, content: R.Content, record: R.StoredRecord)

  datatype ProducerMove =
    | CheckAdmission
    | CheckState
    | CheckGeneration(generation: nat)
    | ReserveCredit(granted: bool)
    | BeginRecord(fits: bool)
    | BuildRecord(complete: bool)
    | FinishRecord(result: Option<WrittenRecord>)
    | CommitRecord

  datatype ControlMove =
    | Register
    | ConfirmRegistration
    | Retire(generation: nat)
    | BeginReconcile
    | RefuseReconcile
    | AdvanceGeneration
    | ReleaseSlot

  datatype ScanMove = BeginQuiescence | TestFlag | TestEmpty | TestFree | EndQuiescence

  datatype Action =
    | Close
    | ControlStep(p: nat, control: ControlMove)
    | ProducerStep(p: nat, move: ProducerMove)
    | PublishRecord(p: nat)
    | GiveUp(p: nat)
    | LaneStep(p: nat, lane: L.LaneMove)
    | WriteCell(p: nat)
    | Consume(step: L.ConsumerMove)
    | Check
    | Clear
    | Acknowledge
    | Quiesce(scan: ScanMove)

  /* --- Steps ---------------------------------------------------------------------------------------- */

  function Controlled(c: Control, open: bool, m: ControlMove): Control {
    match m
    case Register => if c.state.Free? then c.(state := Active, registering := true) else c
    case ConfirmRegistration =>
      if !c.registering then c
      else c.(state := if open then Active else Retiring, registering := false)
    case Retire(generation) =>
      if c.generation == generation && c.state.Active? && !c.registering then c.(state := Retiring) else c
    case BeginReconcile => if c.state.Retiring? then c.(state := Reconciling) else c
    case RefuseReconcile => if c.state.Reconciling? then c.(state := Retiring) else c
    case AdvanceGeneration => if c.state.Reconciling? then c.(generation := c.generation + 1) else c
    case ReleaseSlot => if c.state.Reconciling? then c.(state := Free) else c
  }

  /** The stage and cell after a move, and whether it took a defensive branch. */
  datatype Produced = Produced(stage: Stage, cell: Cell, fault: bool)

  function Produce(stage: Stage, cell: Cell, control: Control, open: bool, maximum: nat, m: ProducerMove): Produced {
    match m
    case CheckAdmission =>
      if !stage.Fresh? then Produced(stage, cell, false)
      else Produced(if open then SawOpen else Refused, cell, false)
    case CheckState =>
      if !stage.SawOpen? then Produced(stage, cell, false)
      else Produced(if control.state.Active? then SawActive else Refused, cell, false)
    case CheckGeneration(generation) =>
      if !stage.SawActive? then Produced(stage, cell, false)
      else Produced(if control.generation == generation then Admitted(generation) else Refused, cell, false)
    case ReserveCredit(granted) =>
      if !stage.Admitted? then Produced(stage, cell, false)
      else Produced(if granted then Reserved(stage.generation) else Refused, cell, false)
    case BeginRecord(fits) =>
      if !stage.Reserved? then Produced(stage, cell, false)
      else if !cell.slot.Reset? then Produced(Refused, cell, true)
      else if !fits then Produced(Refused, cell, false)
      else Produced(Writing(stage.generation), cell.(slot := Building), false)
    case BuildRecord(complete) =>
      if !stage.Writing? || complete then Produced(stage, cell, false)
      else Produced(Refused, cell.(slot := Reset), false)
    case FinishRecord(result) =>
      if !stage.Writing? then Produced(stage, cell, false)
      else if result.None? then Produced(Refused, cell.(slot := Reset), false)
      else
        var size := Size(result.value.record.serializedBytes, result.value.record.chargeBytes);
        if size.serialized > maximum || size.charge > maximum then Produced(Refused, cell.(slot := Published), true)
        else Produced(Finished(stage.generation, size), cell.(slot := Published), false)
    case CommitRecord =>
      if !stage.Finished? then Produced(stage, cell, false)
      else if !CreditLedger.CommitFits(maximum, AccountingCharge(maximum), stage.size.serialized) ||
              AccountingCharge(stage.size.serialized) != stage.size.charge
      then Produced(Refused, cell.(slot := Reset), true)
      else Produced(Installed(stage.generation, stage.size),
                    Cell(Published, Some(stage.size), Some(stage.size), cell.generation + 1), false)
  }

  /** The handle the kernel gives to the lane for the record installed in the claimed cell. */
  function Handle(s: State, p: nat): L.RecordHandle
    requires p < |s.lanes.lanes| && s.lanes.lanes[p].holder.Claimed? && s.lanes.lanes[p].capacity > 0
    requires ClaimedCell(s, p) < |s.cells|
  {
    var c := s.cells[ClaimedCell(s, p)];
    L.RecordHandle(ClaimedCell(s, p), p, c.generation, if c.stored.Some? then c.stored.value.serialized else 0,
                   if c.stored.Some? then c.stored.value.charge else 0)
  }

  function ClaimedCell(s: State, p: nat): nat
    requires p < |s.lanes.lanes| && s.lanes.lanes[p].holder.Claimed? && s.lanes.lanes[p].capacity > 0
  {
    L.CellOf(s.lanes.lanes[p], s.lanes.lanes[p].holder.position)
  }

  /** Lane `p` exists and its claim points at a cell. */
  predicate Working(s: State, p: nat) {
    && p < |s.lanes.lanes| && p < |s.stages| && p < |s.controls| && p < |s.late|
    && s.lanes.lanes[p].holder.Claimed? && s.lanes.lanes[p].capacity > 0
    && ClaimedCell(s, p) < |s.cells|
  }

  function CleanCell(c: Cell): Cell { Cell(Reset, None, None, c.generation) }

  /** The consumer's validation of the record it holds. */
  predicate Valid(s: State) {
    && s.lanes.consumer.Holding?
    && var e := s.lanes.consumer.envelope;
       && e.record.slotIndex < |s.cells|
       && var c := s.cells[e.record.slotIndex];
          && c.stored.Some? && c.owned.Some?
          && e.record.generation == c.generation && e.record.producerIndex == s.lanes.consumer.lane
          && e.record.serializedBytes == c.stored.value.serialized && e.record.chargeBytes == c.stored.value.charge
          && c.owned.value == c.stored.value
  }

  predicate Drained(s: State, p: nat) {
    && p < |s.lanes.lanes| && !s.lanes.lanes[p].publishing
    && s.lanes.lanes[p].published == s.lanes.lanes[p].read
  }

  /** The slot a scan is at, with the answer so far. */
  function Scanned(s: State, m: ScanMove): Scan {
    var c := s.scan;
    match m
    case BeginQuiescence => if c.NoScan? || c.Answered? then AtSlot(0, true, !s.open) else c
    case TestFlag =>
      if c.AtSlot? && c.slot < |s.lanes.lanes| then
        SawFlag(c.slot, c.quiet && !s.lanes.lanes[c.slot].publishing, c.closed)
      else c
    case TestEmpty =>
      if c.SawFlag? && c.slot < |s.lanes.lanes| then
        SawEmpty(c.slot, c.quiet && s.lanes.lanes[c.slot].published == s.lanes.lanes[c.slot].read, c.closed)
      else c
    case TestFree =>
      if c.SawEmpty? && c.slot < |s.controls| then
        AtSlot(c.slot + 1, c.quiet && s.controls[c.slot].state.Free?, c.closed)
      else c
    case EndQuiescence => if c.AtSlot? && c.slot == |s.lanes.lanes| then Answered(c.quiet, c.closed) else c
  }

  predicate Enabled(s: State, a: Action) {
    match a
    case Close => true
    case ControlStep(p, _) => p < |s.controls|
    case ProducerStep(p, m) =>
      && Working(s, p)
      && (m.FinishRecord? && m.result.Some? ==> WriterPromises(m.result.value, s.maximum))
    case PublishRecord(p) => Working(s, p) && s.stages[p].Installed?
    case GiveUp(p) => Working(s, p) && s.stages[p].Refused?
    case LaneStep(p, m) =>
      p < |s.lanes.lanes| && p < |s.stages| && !m.Abandon? && L.Enabled(s.lanes, L.Move(p, m))
    case WriteCell(p) => L.Enabled(s.lanes, L.WriteCell(p))
    case Consume(m) => (s.scan.NoScan? || s.scan.Answered?) && !m.Cancel? && L.Enabled(s.lanes, L.Consume(m))
    case Check => s.taking.Untouched? && s.lanes.consumer.Holding?
    case Clear =>
      s.taking.Checked? && s.lanes.consumer.Holding? && s.lanes.consumer.envelope.record.slotIndex < |s.cells|
    case Acknowledge => s.taking.Cleared? && L.Enabled(s.lanes, L.Acknowledge)
    case Quiesce(m) => s.lanes.consumer.Resting?
  }

  /** What RecordWriter::Publish promises about a record it stores (RecordStorage.RecordWriter.Publish), for a
      writer begun with the configured limit. */
  predicate WriterPromises(f: WrittenRecord, maximum: nat) {
    R.RecordHolds(f.storage, f.content, f.record) && f.content.limit == maximum
  }

  predicate StoredSize(size: Size, maximum: nat) {
    && 0 < size.serialized <= maximum && 0 < size.charge <= maximum
    && size.charge == AccountingCharge(size.serialized)
  }

  /** A stored record is never larger than the limit its writer was begun with, nor charged more, and its charge
      is the one its size calls for. */
  lemma StoredRecordFits(f: WrittenRecord, maximum: nat)
    requires WriterPromises(f, maximum)
    ensures StoredSize(Size(f.record.serializedBytes, f.record.chargeBytes), maximum)
  {}

  function Step(s: State, a: Action): State {
    if !Enabled(s, a) then s else
    match a
    case Close => s.(open := false)
    case ControlStep(p, m) =>
      s.(controls := s.controls[p := Controlled(s.controls[p], s.open, m)])
    case ProducerStep(p, m) =>
      var c := ClaimedCell(s, p);
      var r := Produce(s.stages[p], s.cells[c], s.controls[p], s.open, s.maximum, m);
      s.(stages := s.stages[p := r.stage], cells := s.cells[c := r.cell],
         faults := if r.fault then s.faults + 1 else s.faults)
    case PublishRecord(p) => PublishStep(s, p)
    case GiveUp(p) => s.(lanes := L.Step(s.lanes, L.Move(p, L.Abandon)), stages := s.stages[p := Fresh])
    case LaneStep(p, m) =>
      s.(lanes := L.Step(s.lanes, L.Move(p, m)),
         stages := s.stages[p := if m.ReadPositions? || m.ClearFlag? then Fresh else s.stages[p]])
    case WriteCell(p) => s.(lanes := L.Step(s.lanes, L.WriteCell(p)))
    case Consume(m) => s.(lanes := L.Step(s.lanes, L.Consume(m)), taking := Untouched)
    case Check => s.(taking := Checked, faults := if Valid(s) then s.faults else s.faults + 1)
    case Clear =>
      var c := s.lanes.consumer.envelope.record.slotIndex;
      s.(taking := Cleared, cells := s.cells[c := CleanCell(s.cells[c])])
    case Acknowledge => s.(lanes := L.Step(s.lanes, L.Acknowledge), taking := Untouched)
    case Quiesce(m) => s.(scan := Scanned(s, m))
  }

  /** Hands the installed record to the lane; a handle the lane refused would undo the installation. */
  function PublishStep(s: State, p: nat): State
    requires Working(s, p) && s.stages[p].Installed?
  {
    var h, c := Handle(s, p), ClaimedCell(s, p);
    var ok := L.Enabled(s.lanes, L.AllocateSequence(p, h));
    s.(lanes := L.Step(s.lanes, L.AllocateSequence(p, h)),
       stages := s.stages[p := if ok then Publishing(s.stages[p].generation) else Refused],
       cells := if ok then s.cells else s.cells[c := CleanCell(s.cells[c])],
       late := if ok && !s.open then s.late[p := s.late[p] + 1] else s.late,
       faults := if ok then s.faults else s.faults + 1)
  }

  function Run(s: State, schedule: seq<Action>): State {
    if schedule == [] then s
    else Step(Run(s, schedule[..|schedule| - 1]), schedule[|schedule| - 1])
  }

  /* --- Cells ------------------------------------------------------------------------------------------ */

  predicate Clean(c: Cell) {
    c.slot.Reset? && c.stored.None? && c.owned.None?
  }

  /** The cell carries the record under the handle. */
  predicate Holds(c: Cell, record: L.RecordHandle) {
    && c.slot.Published? && c.generation == record.generation
    && c.stored == Some(Size(record.serializedBytes, record.chargeBytes)) && c.owned == c.stored
  }

  /** The cell of a claim, by how far the claim's holder has come. */
  predicate StageCell(stage: Stage, c: Cell, maximum: nat) {
    match stage
    case Writing(_) => c.slot.Building? && c.stored.None? && c.owned.None?
    case Finished(_, size) =>
      c.slot.Published? && c.stored.None? && c.owned.None? && StoredSize(size, maximum)
    case Installed(_, size) =>
      c.slot.Published? && c.stored == Some(size) && c.owned == c.stored && StoredSize(size, maximum)
    case _ => Clean(c)
  }

  /** The cell of position `i` of a lane: published and unacknowledged positions carry their record, the
      claimed position is as far as its holder, and every other cell is clean. */
  predicate PlaceOk(l: L.Lane, stage: Stage, c: Cell, i: nat, log: seq<L.Admission>, maximum: nat, cleared: bool) {
    if i < l.published || (i == l.published && L.MidPublication(l.holder)) then
      if cleared && i == l.read then Clean(c)
      else i < |l.admitted| && l.admitted[i] < |log| && Holds(c, log[l.admitted[i]].record)
    else if i == l.published && l.holder.Claimed? then StageCell(stage, c, maximum)
    else Clean(c)
  }

  predicate PlacesOk(l: L.Lane, stage: Stage, cells: seq<Cell>, log: seq<L.Admission>, maximum: nat, cleared: bool) {
    && l.capacity > 0 && l.offset + l.capacity <= |cells|
    && forall i :: l.read <= i < l.read + l.capacity ==>
         PlaceOk(l, stage, cells[L.CellOf(l, i)], i, log, maximum, cleared)
  }

  /** The stage agrees with the lane's holder. */
  predicate StageOk(l: L.Lane, stage: Stage) {
    if l.holder.Claimed? then !stage.Publishing?
    else if L.MidPublication(l.holder) || l.holder.Stored? then stage.Publishing?
    else stage.Fresh?
  }

  lemma PlacesFrame(l: L.Lane, stage: Stage, cells: seq<Cell>, cells': seq<Cell>, log: seq<L.Admission>,
                    log': seq<L.Admission>, maximum: nat, cleared: bool)
    requires PlacesOk(l, stage, cells, log, maximum, cleared) && log <= log' && |cells'| == |cells|
    requires forall c :: l.offset <= c < l.offset + l.capacity ==> cells'[c] == cells[c]
    ensures PlacesOk(l, stage, cells', log', maximum, cleared)
  {}

  lemma MovedPlaces(l: L.Lane, m: L.LaneMove, stage: Stage, cells: seq<Cell>, log: seq<L.Admission>, maximum: nat,
                    cleared: bool)
    requires PlacesOk(l, stage, cells, log, maximum, cleared) && StageOk(l, stage)
    requires L.PositionsOk(l) && L.CanMove(l, m) && !m.Abandon?
    ensures var stage' := if m.ReadPositions? || m.ClearFlag? then Fresh else stage;
            PlacesOk(L.Moved(l, m), stage', cells, log, maximum, cleared) && StageOk(L.Moved(l, m), stage')
  {
    var l' := L.Moved(l, m);
    var stage' := if m.ReadPositions? || m.ClearFlag? then Fresh else stage;
    forall i | l'.read <= i < l'.read + l'.capacity
      ensures PlaceOk(l', stage', cells[L.CellOf(l', i)], i, log, maximum, cleared)
    {
      assert PlaceOk(l, stage, cells[L.CellOf(l, i)], i, log, maximum, cleared);
    }
  }

  /** Another cell or stage at the claimed position. */
  lemma ClaimedPlaces(l: L.Lane, stage: Stage, stage': Stage, c: Cell, cells: seq<Cell>, log: seq<L.Admission>,
                      maximum: nat, cleared: bool)
    requires PlacesOk(l, stage, cells, log, maximum, cleared) && L.PositionsOk(l) && l.holder.Claimed?
    requires StageCell(stage', c, maximum)
    ensures PlacesOk(l, stage', cells[L.CellOf(l, l.holder.position) := c], log, maximum, cleared)
  {
    var cells' := cells[L.CellOf(l, l.holder.position) := c];
    forall i | l.read <= i < l.read + l.capacity
      ensures PlaceOk(l, stage', cells'[L.CellOf(l, i)], i, log, maximum, cleared)
    {
      assert PlaceOk(l, stage, cells[L.CellOf(l, i)], i, log, maximum, cleared);
      if i < l.holder.position {
        DistinctCells(l.capacity, i, l.holder.position);
      } else if i > l.holder.position {
        DistinctCells(l.capacity, l.holder.position, i);
      }
    }
  }

  lemma ClaimedStage(l: L.Lane, stage: Stage, cells: seq<Cell>, log: seq<L.Admission>, maximum: nat, cleared: bool)
    requires PlacesOk(l, stage, cells, log, maximum, cleared) && L.PositionsOk(l) && l.holder.Claimed?
    ensures L.CellOf(l, l.holder.position) < |cells|
    ensures StageCell(stage, cells[L.CellOf(l, l.holder.position)], maximum)
  {
    assert PlaceOk(l, stage, cells[L.CellOf(l, l.holder.position)], l.holder.position, log, maximum, cleared);
  }

  /** What a producer's move makes of its cell: no defensive branch is ever taken. That a finished record passes
      both of the kernel's tests is what its writer proves of it. */
  lemma ProduceOk(stage: Stage, cell: Cell, control: Control, open: bool, maximum: nat, m: ProducerMove)
    requires StageCell(stage, cell, maximum) && !stage.Publishing?
    requires maximum % QUANTUM == 0 && 0 < maximum <= MAXIMUM_RECORD_BYTES
    requires m.FinishRecord? && m.result.Some? ==> WriterPromises(m.result.value, maximum)
    ensures var r := Produce(stage, cell, control, open, maximum, m);
            !r.fault && StageCell(r.stage, r.cell, maximum) && !r.stage.Publishing?
  {
    hide WriterPromises;
    if stage.Finished? {
      ChargeMonotone(stage.size.serialized, maximum);
    }
    if m.FinishRecord? && m.result.Some? {
      StoredRecordFits(m.result.value, maximum);
    }
  }

  /** The sequence is allocated: the installed record is now the log's. */
  lemma AllocatedPlaces(l: L.Lane, stage: Stage, stage': Stage, cells: seq<Cell>, log: seq<L.Admission>,
                        entry: L.Admission, e: L.Envelope, maximum: nat, cleared: bool)
    requires PlacesOk(l, stage, cells, log, maximum, cleared) && L.PositionsOk(l) && l.holder.Claimed?
    requires stage.Installed? && L.CellOf(l, l.holder.position) < |cells| && (cleared ==> l.read < l.published)
    requires Holds(cells[L.CellOf(l, l.holder.position)], entry.record)
    ensures PlacesOk(l.(holder := L.Sequenced(l.holder.position, e), admitted := l.admitted + [|log|]), stage', cells,
                     log + [entry], maximum, cleared)
  {
    var l' := l.(holder := L.Sequenced(l.holder.position, e), admitted := l.admitted + [|log|]);
    forall i | l'.read <= i < l'.read + l'.capacity
      ensures PlaceOk(l', stage', cells[L.CellOf(l', i)], i, log + [entry], maximum, cleared)
    {
      assert PlaceOk(l, stage, cells[L.CellOf(l, i)], i, log, maximum, cleared);
    }
  }

  lemma AbandonedPlaces(l: L.Lane, cells: seq<Cell>, log: seq<L.Admission>, maximum: nat, cleared: bool)
    requires PlacesOk(l, Refused, cells, log, maximum, cleared) && L.PositionsOk(l) && l.holder.Claimed?
    ensures PlacesOk(l.(publishing := false, holder := L.Nobody), Fresh, cells, log, maximum, cleared)
  {
    var l' := l.(publishing := false, holder := L.Nobody);
    forall i | l'.read <= i < l'.read + l'.capacity
      ensures PlaceOk(l', Fresh, cells[L.CellOf(l', i)], i, log, maximum, cleared)
    {
      assert PlaceOk(l, Refused, cells[L.CellOf(l, i)], i, log, maximum, cleared);
    }
  }

  lemma WrittenPlaces(l: L.Lane, stage: Stage, cells: seq<Cell>, log: seq<L.Admission>, maximum: nat, cleared: bool)
    requires PlacesOk(l, stage, cells, log, maximum, cleared) && l.holder.Sequenced?
    ensures PlacesOk(l.(holder := L.Written(l.holder.position)), stage, cells, log, maximum, cleared)
  {
    var l' := l.(holder := L.Written(l.holder.position));
    forall i | l'.read <= i < l'.read + l'.capacity
      ensures PlaceOk(l', stage, cells[L.CellOf(l', i)], i, log, maximum, cleared)
    {
      assert PlaceOk(l, stage, cells[L.CellOf(l, i)], i, log, maximum, cleared);
    }
  }

  /** The consumer empties the cell at the head of the lane. */
  lemma ClearedPlaces(l: L.Lane, stage: Stage, cells: seq<Cell>, log: seq<L.Admission>, maximum: nat)
    requires PlacesOk(l, stage, cells, log, maximum, false) && l.read < l.published
    ensures L.CellOf(l, l.read) < |cells|
    ensures PlacesOk(l, stage, cells[L.CellOf(l, l.read) := CleanCell(cells[L.CellOf(l, l.read)])], log, maximum, true)
  {
    var cells' := cells[L.CellOf(l, l.read) := CleanCell(cells[L.CellOf(l, l.read)])];
    forall i | l.read <= i < l.read + l.capacity
      ensures PlaceOk(l, stage, cells'[L.CellOf(l, i)], i, log, maximum, true)
    {
      assert PlaceOk(l, stage, cells[L.CellOf(l, i)], i, log, maximum, false);
      if i > l.read {
        DistinctCells(l.capacity, l.read, i);
      }
    }
  }

  /** The window moves on over the emptied cell. */
  lemma AcknowledgedPlaces(l: L.Lane, stage: Stage, cells: seq<Cell>, log: seq<L.Admission>, maximum: nat)
    requires PlacesOk(l, stage, cells, log, maximum, true) && L.PositionsOk(l) && l.read < l.published
    ensures PlacesOk(l.(read := l.read + 1), stage, cells, log, maximum, false)
  {
    var l' := l.(read := l.read + 1);
    forall i | l'.read <= i < l'.read + l'.capacity
      ensures PlaceOk(l', stage, cells[L.CellOf(l', i)], i, log, maximum, false)
    {
      if i < l.read + l.capacity {
        assert PlaceOk(l, stage, cells[L.CellOf(l, i)], i, log, maximum, true);
      } else {
        NextLap(l.capacity, l.read);
        assert i == l.read + l.capacity && L.CellOf(l', i) == L.CellOf(l, l.read);
        assert PlaceOk(l, stage, cells[L.CellOf(l, l.read)], l.read, log, maximum, true);
      }
    }
  }

  /* --- The invariant -------------------------------------------------------------------------------------- */

  /** The configuration bounds, and one control, stage and counter per lane. */
  predicate ShapeOk(s: State) {
    && |s.stages| == |s.controls| == |s.late| == |s.lanes.lanes| <= L.MAXIMUM_PRODUCER_SLOTS
    && |s.cells| == |s.lanes.cells| <= L.MAXIMUM_INGRESS_CELLS
    && s.maximum % QUANTUM == 0 && 0 < s.maximum <= MAXIMUM_RECORD_BYTES
  }

  predicate ClearedAt(s: State, p: nat) {
    s.taking.Cleared? && s.lanes.consumer.Holding? && s.lanes.consumer.lane == p
  }

  predicate CellsOk(s: State) {
    && |s.stages| == |s.lanes.lanes|
    && forall p :: 0 <= p < |s.lanes.lanes| ==>
         && PlacesOk(s.lanes.lanes[p], s.stages[p], s.cells, s.lanes.admissions, s.maximum, ClearedAt(s, p))
         && StageOk(s.lanes.lanes[p], s.stages[p])
  }

  /** A logged record names its own lane and cell. */
  predicate EntryOk(lanes: seq<L.Lane>, a: L.Admission) {
    && a.lane < |lanes| && a.record.producerIndex == a.lane && lanes[a.lane].capacity > 0
    && a.record.slotIndex == L.CellOf(lanes[a.lane], a.position)
  }

  predicate EntriesOk(s: State) {
    forall k :: 0 <= k < |s.lanes.admissions| ==> EntryOk(s.lanes.lanes, s.lanes.admissions[k])
  }

  predicate HasGeneration(stage: Stage) {
    stage.Admitted? || stage.Reserved? || stage.Writing? || stage.Finished? || stage.Installed? || stage.Publishing?
  }

  /** The holder has seen admission open and may still publish. */
  predicate Passed(stage: Stage) {
    !stage.Fresh? && !stage.Refused? && !stage.Publishing?
  }

  predicate LaneControlOk(s: State, p: nat)
    requires p < |s.stages| == |s.controls| == |s.late|
  {
    && (s.open ==> s.late[p] == 0)
    && s.late[p] + (if !s.open && Passed(s.stages[p]) then 1 else 0) <= 1
  }

  predicate ControlsOk(s: State) {
    && |s.stages| == |s.controls| == |s.late|
    && forall p :: 0 <= p < |s.stages| ==> LaneControlOk(s, p)
  }

  /** No record can be admitted on the lane any more. */
  predicate Sealed(s: State, p: nat) {
    && p < |s.stages| && p < |s.lanes.lanes|
    && !s.open && !Passed(s.stages[p]) && !L.MidPublication(s.lanes.lanes[p].holder)
  }

  /** And every record admitted on it has been acknowledged. */
  predicate Quiet(s: State, p: nat) {
    Sealed(s, p) && s.lanes.lanes[p].published == s.lanes.lanes[p].read
  }

  predicate QuietBelow(s: State, n: nat) {
    forall q :: 0 <= q < n ==> Quiet(s, q)
  }

  predicate ScanOk(s: State) {
    match s.scan
    case NoScan => true
    case AtSlot(slot, quiet, closed) => closed ==> !s.open && (quiet ==> slot <= |s.stages| && QuietBelow(s, slot))
    case SawFlag(slot, quiet, closed) => closed ==> !s.open && (quiet ==> QuietBelow(s, slot) && Sealed(s, slot))
    case SawEmpty(slot, quiet, closed) => closed ==> !s.open && (quiet ==> QuietBelow(s, slot) && Quiet(s, slot))
    case Answered(quiet, closed) => closed ==> !s.open && (quiet ==> QuietBelow(s, |s.lanes.lanes|))
  }

  predicate TakingOk(s: State) {
    s.taking.Untouched? || s.lanes.consumer.Holding?
  }

  ghost predicate Inv(s: State) {
    && L.Inv(s.lanes) && ShapeOk(s) && CellsOk(s) && EntriesOk(s) && ControlsOk(s) && ScanOk(s) && TakingOk(s)
    && s.faults == 0
  }

  /* --- Frames ------------------------------------------------------------------------------------------- */

  /** Lanes that were sealed or quiet stay so. */
  ghost predicate QuietKept(s: State, s': State) {
    && (forall q :: Sealed(s, q) ==> Sealed(s', q))
    && (forall q :: Quiet(s, q) ==> Quiet(s', q))
  }

  lemma ScanFrame(s: State, s': State)
    requires ScanOk(s) && s'.scan == s.scan && QuietKept(s, s') && (s'.open ==> s.open)
    requires |s'.stages| == |s.stages| && |s'.lanes.lanes| == |s.lanes.lanes|
    ensures ScanOk(s')
  {
    hide Sealed, Quiet;
    assert forall n :: QuietBelow(s, n) ==> QuietBelow(s', n);
  }

  /** Only lane `p`, its stage, its control and its late counter may differ. */
  predicate OnlyLane(s: State, s': State, p: nat) {
    && |s'.lanes.lanes| == |s.lanes.lanes| && |s'.stages| == |s.stages| && |s'.controls| == |s.controls|
    && |s'.late| == |s.late| && s'.open == s.open
    && (forall q :: 0 <= q < |s.lanes.lanes| && q != p ==> s'.lanes.lanes[q] == s.lanes.lanes[q])
    && (forall q :: 0 <= q < |s.stages| && q != p ==> s'.stages[q] == s.stages[q])
    && (forall q :: 0 <= q < |s.controls| && q != p ==> s'.controls[q] == s.controls[q])
    && (forall q :: 0 <= q < |s.late| && q != p ==> s'.late[q] == s.late[q])
  }

  lemma ControlsFrame(s: State, s': State, p: nat)
    requires ControlsOk(s) && OnlyLane(s, s', p) && p < |s.stages| && LaneControlOk(s', p)
    ensures ControlsOk(s')
  {
    forall q | 0 <= q < |s'.stages|
      ensures LaneControlOk(s', q)
    {
      assert LaneControlOk(s, q);
    }
  }

  lemma QuietFrame(s: State, s': State, p: nat)
    requires OnlyLane(s, s', p) && (Sealed(s, p) ==> Sealed(s', p)) && (Quiet(s, p) ==> Quiet(s', p))
    ensures QuietKept(s, s')
  {}

  /** The other lanes' cells are as they were. */
  lemma CellsFrame(s: State, s': State, p: nat)
    requires CellsOk(s) && L.Partitioned(s.lanes.lanes) && |s'.stages| == |s'.lanes.lanes| == |s.lanes.lanes|
    requires forall q :: 0 <= q < |s.lanes.lanes| && q != p ==>
               s'.lanes.lanes[q] == s.lanes.lanes[q] && s'.stages[q] == s.stages[q] &&
               ClearedAt(s', q) == ClearedAt(s, q)
    requires p < |s.lanes.lanes| && |s'.cells| == |s.cells| && s'.maximum == s.maximum
    requires s.lanes.admissions <= s'.lanes.admissions
    requires var l := s.lanes.lanes[p];
             forall c :: 0 <= c < |s.cells| && !(l.offset <= c < l.offset + l.capacity) ==> s'.cells[c] == s.cells[c]
    requires PlacesOk(s'.lanes.lanes[p], s'.stages[p], s'.cells, s'.lanes.admissions, s'.maximum, ClearedAt(s', p))
    requires StageOk(s'.lanes.lanes[p], s'.stages[p])
    ensures CellsOk(s')
  {
    hide ClearedAt, PlaceOk, StageOk;
    forall q | 0 <= q < |s'.lanes.lanes|
      ensures PlacesOk(s'.lanes.lanes[q], s'.stages[q], s'.cells, s'.lanes.admissions, s'.maximum, ClearedAt(s', q))
    {
      if q != p {
        PlacesFrame(s.lanes.lanes[q], s.stages[q], s.cells, s'.cells, s.lanes.admissions, s'.lanes.admissions,
                    s.maximum, ClearedAt(s, q));
      }
    }
  }

  lemma EntriesFrame(s: State, s': State)
    requires EntriesOk(s) && s'.lanes.admissions == s.lanes.admissions && |s'.lanes.lanes| == |s.lanes.lanes|
    requires forall p :: 0 <= p < |s.lanes.lanes| ==>
               s'.lanes.lanes[p].offset == s.lanes.lanes[p].offset &&
               s'.lanes.lanes[p].capacity == s.lanes.lanes[p].capacity
    ensures EntriesOk(s')
  {
    forall k | 0 <= k < |s'.lanes.admissions|
      ensures EntryOk(s'.lanes.lanes, s'.lanes.admissions[k])
    {
      assert EntryOk(s.lanes.lanes, s.lanes.admissions[k]);
    }
  }

  lemma LaneAt(s: State, p: nat)
    requires Inv(s) && p < |s.lanes.lanes|
    ensures L.PositionsOk(s.lanes.lanes[p]) && StageOk(s.lanes.lanes[p], s.stages[p]) && |s.stages| == |s.lanes.lanes|
    ensures PlacesOk(s.lanes.lanes[p], s.stages[p], s.cells, s.lanes.admissions, s.maximum, ClearedAt(s, p))
    ensures L.Partitioned(s.lanes.lanes)
    ensures ClearedAt(s, p) ==> s.lanes.lanes[p].read < s.lanes.lanes[p].published
  {
    hide PlacesOk, StageOk, L.PositionsOk, L.AdmittedOk, L.CellsOk;
  }

  /* --- Every step keeps the invariant ---------------------------------------------------------------------- */

  lemma CloseInv(s: State)
    requires Inv(s)
    ensures Inv(Step(s, Close)) && QuietKept(s, Step(s, Close))
  {
    hide L.Inv, PlacesOk, StageOk;
    var s' := Step(s, Close);
    forall p | 0 <= p < |s'.stages|
      ensures LaneControlOk(s', p)
    {
      assert LaneControlOk(s, p);
    }
    assert QuietKept(s, s');
    ScanFrame(s, s');
  }

  lemma ControlInv(s: State, p: nat, m: ControlMove)
    requires Inv(s) && p < |s.controls|
    ensures Inv(Step(s, ControlStep(p, m))) && QuietKept(s, Step(s, ControlStep(p, m)))
  {
    hide L.Inv, PlacesOk, L.PositionsOk;
    LaneAt(s, p);
    PublishingHeld(s, p);
    var s' := Step(s, ControlStep(p, m));
    assert LaneControlOk(s, p);
    ControlsFrame(s, s', p);
    QuietFrame(s, s', p);
    ScanFrame(s, s');
  }

  lemma PublishingHeld(s: State, p: nat)
    requires Inv(s) && p < |s.lanes.lanes|
    ensures !s.lanes.lanes[p].publishing ==> s.lanes.lanes[p].holder.Nobody?
  {
    hide PlacesOk, StageOk, L.AdmittedOk, L.CellsOk;
  }

  lemma ProducerInv(s: State, p: nat, m: ProducerMove)
    requires Inv(s) && Enabled(s, ProducerStep(p, m))
    ensures Inv(Step(s, ProducerStep(p, m))) && QuietKept(s, Step(s, ProducerStep(p, m)))
  {
    hide L.Inv, PlacesOk, Produce, StageCell, L.PositionsOk, WriterPromises;
    LaneAt(s, p);
    var l, s' := s.lanes.lanes[p], Step(s, ProducerStep(p, m));
    ClaimedStage(l, s.stages[p], s.cells, s.lanes.admissions, s.maximum, ClearedAt(s, p));
    ProduceOk(s.stages[p], s.cells[ClaimedCell(s, p)], s.controls[p], s.open, s.maximum, m);
    ClaimedPlaces(l, s.stages[p], s'.stages[p], s'.cells[ClaimedCell(s, p)], s.cells, s.lanes.admissions, s.maximum,
                  ClearedAt(s, p));
    CellsFrame(s, s', p);
    assert LaneControlOk(s, p);
    ProduceControl(s.stages[p], s.cells[ClaimedCell(s, p)], s.controls[p], s.open, s.maximum, m);
    ControlsFrame(s, s', p);
    QuietFrame(s, s', p);
    ScanFrame(s, s');
  }

  /** A move past the admission check needs it open. */
  lemma ProduceControl(stage: Stage, cell: Cell, control: Control, open: bool, maximum: nat, m: ProducerMove)
    ensures var r := Produce(stage, cell, control, open, maximum, m);
            Passed(r.stage) ==> Passed(stage) || (open && stage.Fresh?)
  {}

  lemma GiveUpInv(s: State, p: nat)
    requires Inv(s) && Enabled(s, GiveUp(p))
    ensures Inv(Step(s, GiveUp(p))) && QuietKept(s, Step(s, GiveUp(p)))
  {
    hide L.Inv, PlacesOk, L.PositionsOk;
    LaneAt(s, p);
    L.InvStep(s.lanes, L.Move(p, L.Abandon));
    var s' := Step(s, GiveUp(p));
    AbandonedPlaces(s.lanes.lanes[p], s.cells, s.lanes.admissions, s.maximum, ClearedAt(s, p));
    CellsFrame(s, s', p);
    EntriesFrame(s, s');
    assert LaneControlOk(s, p);
    ControlsFrame(s, s', p);
    QuietFrame(s, s', p);
    ScanFrame(s, s');
  }

  lemma LaneStepInv(s: State, p: nat, m: L.LaneMove)
    requires Inv(s) && Enabled(s, LaneStep(p, m))
    ensures Inv(Step(s, LaneStep(p, m))) && QuietKept(s, Step(s, LaneStep(p, m)))
  {
    hide L.Inv, PlacesOk, L.PositionsOk, L.Moved, L.CanMove;
    LaneAt(s, p);
    L.InvStep(s.lanes, L.Move(p, m));
    var s' := Step(s, LaneStep(p, m));
    MovedPlaces(s.lanes.lanes[p], m, s.stages[p], s.cells, s.lanes.admissions, s.maximum, ClearedAt(s, p));
    MovedControl(s.lanes.lanes[p], m, s.stages[p]);
    CellsFrame(s, s', p);
    EntriesFrame(s, s');
    assert LaneControlOk(s, p);
    ControlsFrame(s, s', p);
    QuietFrame(s, s', p);
    ScanFrame(s, s');
  }

  lemma MovedControl(l: L.Lane, m: L.LaneMove, stage: Stage)
    requires L.CanMove(l, m) && StageOk(l, stage) && L.PositionsOk(l)
    ensures var l' := L.Moved(l, m);
            && l'.offset == l.offset && l'.capacity == l.capacity && l'.read == l.read
            && (!L.MidPublication(l.holder) ==> l'.published == l.published && !L.MidPublication(l'.holder))
  {}

  /** The handle of an installed record is always one the lane accepts. */
  lemma HandleAccepted(s: State, p: nat)
    requires Inv(s) && Working(s, p) && s.stages[p].Installed?
    ensures L.Enabled(s.lanes, L.AllocateSequence(p, Handle(s, p)))
    ensures Holds(s.cells[ClaimedCell(s, p)], Handle(s, p))
  {
    hide L.Inv, PlacesOk, L.PositionsOk, CellsOk, EntriesOk, ControlsOk, ScanOk;
    LaneAt(s, p);
    ClaimedStage(s.lanes.lanes[p], s.stages[p], s.cells, s.lanes.admissions, s.maximum, ClearedAt(s, p));
  }

  /** What allocating a sequence does to the lanes. */
  lemma AllocateEffect(s: L.State, p: nat, record: L.RecordHandle)
    requires L.Inv(s) && L.Enabled(s, L.AllocateSequence(p, record))
    ensures var t, l := L.Step(s, L.AllocateSequence(p, record)), s.lanes[p];
            && L.Inv(t) && s.accepted == |s.admissions|
            && t.lanes == s.lanes[p := l.(holder := L.Sequenced(l.holder.position, L.Envelope(record, |s.admissions|)),
                                          admitted := l.admitted + [|s.admissions|])]
            && t.admissions == s.admissions + [L.Admission(p, l.holder.position, record)]
            && t.cells == s.cells && t.consumer == s.consumer
  {
    L.InvStep(s, L.AllocateSequence(p, record));
  }

  lemma PublishInv(s: State, p: nat)
    requires Inv(s) && Enabled(s, PublishRecord(p))
    ensures Inv(Step(s, PublishRecord(p))) && QuietKept(s, Step(s, PublishRecord(p)))
  {
    hide L.Inv, PlacesOk, L.PositionsOk, L.Step, L.Enabled, Holds, Handle;
    LaneAt(s, p);
    HandleAccepted(s, p);
    AllocateEffect(s.lanes, p, Handle(s, p));
    var l, s' := s.lanes.lanes[p], Step(s, PublishRecord(p));
    var entry := L.Admission(p, l.holder.position, Handle(s, p));
    AllocatedPlaces(l, s.stages[p], s'.stages[p], s.cells, s.lanes.admissions, entry,
                    L.Envelope(Handle(s, p), |s.lanes.admissions|), s.maximum, ClearedAt(s, p));
    CellsFrame(s, s', p);
    PublishEntries(s, s', p, entry);
    assert LaneControlOk(s, p);
    ControlsFrame(s, s', p);
    QuietFrame(s, s', p);
    ScanFrame(s, s');
  }

  lemma PublishEntries(s: State, s': State, p: nat, entry: L.Admission)
    requires EntriesOk(s) && s'.lanes.admissions == s.lanes.admissions + [entry] && |s'.lanes.lanes| == |s.lanes.lanes|
    requires forall q :: 0 <= q < |s.lanes.lanes| ==>
               s'.lanes.lanes[q].offset == s.lanes.lanes[q].offset &&
               s'.lanes.lanes[q].capacity == s.lanes.lanes[q].capacity
    requires Working(s, p) && entry == L.Admission(p, s.lanes.lanes[p].holder.position, Handle(s, p))
    ensures EntriesOk(s')
  {
    forall k | 0 <= k < |s'.lanes.admissions|
      ensures EntryOk(s'.lanes.lanes, s'.lanes.admissions[k])
    {
      if k < |s.lanes.admissions| {
        assert EntryOk(s.lanes.lanes, s.lanes.admissions[k]);
      }
    }
  }

  lemma WriteInv(s: State, p: nat)
    requires Inv(s) && Enabled(s, WriteCell(p))
    ensures Inv(Step(s, WriteCell(p))) && QuietKept(s, Step(s, WriteCell(p)))
  {
    hide L.Inv, PlacesOk, L.PositionsOk;
    LaneAt(s, p);
    L.InvStep(s.lanes, L.WriteCell(p));
    var s' := Step(s, WriteCell(p));
    WrittenPlaces(s.lanes.lanes[p], s.stages[p], s.cells, s.lanes.admissions, s.maximum, ClearedAt(s, p));
    CellsFrame(s, s', p);
    EntriesFrame(s, s');
    assert LaneControlOk(s, p);
    ControlsFrame(s, s', p);
    QuietFrame(s, s', p);
    ScanFrame(s, s');
  }

  /** Steps that change nothing but the consumer's or the scan's own progress. */
  lemma ProgressInv(s: State, s': State)
    requires Inv(s) && L.Inv(s'.lanes) && ScanOk(s') && TakingOk(s') && s'.faults == 0
    requires s'.lanes.lanes == s.lanes.lanes && s'.lanes.cells == s.lanes.cells
    requires s'.lanes.admissions == s.lanes.admissions && s'.maximum == s.maximum && s'.open == s.open
    requires s'.controls == s.controls && s'.cells == s.cells && s'.stages == s.stages && s'.late == s.late
    requires forall p :: ClearedAt(s', p) == ClearedAt(s, p)
    ensures Inv(s')
  {
    hide L.Inv, PlacesOk, StageOk, ClearedAt, ScanOk;
    EntriesFrame(s, s');
    forall p | 0 <= p < |s'.stages|
      ensures LaneControlOk(s', p)
    {
      assert LaneControlOk(s, p);
    }
  }

  lemma ConsumeInv(s: State, m: L.ConsumerMove)
    requires Inv(s) && Enabled(s, Consume(m))
    ensures Inv(Step(s, Consume(m))) && QuietKept(s, Step(s, Consume(m)))
  {
    hide L.Inv, PlacesOk, StageOk, L.Consumed, LaneControlOk;
    L.InvStep(s.lanes, L.Consume(m));
    var s' := Step(s, Consume(m));
    assert !s.lanes.consumer.Holding?;
    assert QuietKept(s, s');
    ScanFrame(s, s');
    ProgressInv(s, s');
  }

  /** The record the consumer holds is the head of its lane and lies in the head's cell. */
  lemma HeldCell(s: State)
    requires Inv(s) && s.lanes.consumer.Holding?
    ensures var c := s.lanes.consumer;
            && c.lane < |s.lanes.lanes| && c.read == s.lanes.lanes[c.lane].read < s.lanes.lanes[c.lane].published
            && s.lanes.lanes[c.lane].capacity > 0
            && c.envelope.record.slotIndex == L.CellOf(s.lanes.lanes[c.lane], c.read) < |s.cells|
            && s.lanes.lanes[c.lane].offset + s.lanes.lanes[c.lane].capacity <= |s.cells|
  {
    hide L.LaneOk, StageOk, ControlsOk, ScanOk, PlaceOk;
    var c := s.lanes.consumer;
    assert EntryOk(s.lanes.lanes, s.lanes.admissions[s.lanes.next]);
    assert PlacesOk(s.lanes.lanes[c.lane], s.stages[c.lane], s.cells, s.lanes.admissions, s.maximum,
                    ClearedAt(s, c.lane));
  }

  /** The consumer's validation always passes. */
  lemma ValidationPasses(s: State)
    requires Inv(s) && s.taking.Untouched? && s.lanes.consumer.Holding?
    ensures Valid(s)
  {
    hide L.LaneOk, StageOk, ControlsOk, ScanOk;
    HeldCell(s);
    var c := s.lanes.consumer;
    var l, a := s.lanes.lanes[c.lane], s.lanes.admissions[s.lanes.next];
    assert EntryOk(s.lanes.lanes, a);
    assert PlacesOk(l, s.stages[c.lane], s.cells, s.lanes.admissions, s.maximum, false);
    assert PlaceOk(l, s.stages[c.lane], s.cells[L.CellOf(l, c.read)], c.read, s.lanes.admissions, s.maximum, false);
    HeldAdmission(s);
  }

  lemma HeldAdmission(s: State)
    requires L.Inv(s.lanes) && s.lanes.consumer.Holding?
    ensures var c := s.lanes.consumer;
            && c.lane < |s.lanes.lanes| && c.read < |s.lanes.lanes[c.lane].admitted|
            && s.lanes.lanes[c.lane].admitted[c.read] == s.lanes.next < |s.lanes.admissions|
            && s.lanes.admissions[s.lanes.next].lane == c.lane
            && c.envelope.record == s.lanes.admissions[s.lanes.next].record
  {
    hide L.LaneOk;
  }

  lemma CheckInv(s: State)
    requires Inv(s) && Enabled(s, Check)
    ensures Inv(Step(s, Check)) && QuietKept(s, Step(s, Check))
  {
    hide L.Inv, PlacesOk, StageOk, Valid, LaneControlOk;
    ValidationPasses(s);
    var s' := Step(s, Check);
    assert QuietKept(s, s');
    ScanFrame(s, s');
    ProgressInv(s, s');
  }

  lemma ClearInv(s: State)
    requires Inv(s) && Enabled(s, Clear)
    ensures Inv(Step(s, Clear)) && QuietKept(s, Step(s, Clear))
  {
    hide L.Inv, PlacesOk, L.PositionsOk, LaneControlOk;
    HeldCell(s);
    var p, s' := s.lanes.consumer.lane, Step(s, Clear);
    LaneAt(s, p);
    ClearedPlaces(s.lanes.lanes[p], s.stages[p], s.cells, s.lanes.admissions, s.maximum);
    CellsFrame(s, s', p);
    EntriesFrame(s, s');
    assert LaneControlOk(s, p);
    SameControl(s, s');
    assert QuietKept(s, s');
    ScanFrame(s, s');
  }

  lemma SameControl(s: State, s': State)
    requires ControlsOk(s) && s'.stages == s.stages && s'.controls == s.controls && s'.late == s.late &&
             s'.open == s.open
    ensures ControlsOk(s')
  {
    forall p | 0 <= p < |s'.stages|
      ensures LaneControlOk(s', p)
    {
      assert LaneControlOk(s, p);
    }
  }

  lemma AcknowledgeInv(s: State)
    requires Inv(s) && Enabled(s, Acknowledge)
    ensures Inv(Step(s, Acknowledge)) && QuietKept(s, Step(s, Acknowledge))
  {
    hide L.Inv, PlacesOk, L.PositionsOk, LaneControlOk;
    HeldCell(s);
    L.InvStep(s.lanes, L.Acknowledge);
    var p, s' := s.lanes.consumer.lane, Step(s, Acknowledge);
    LaneAt(s, p);
    AcknowledgedPlaces(s.lanes.lanes[p], s.stages[p], s.cells, s.lanes.admissions, s.maximum);
    CellsFrame(s, s', p);
    EntriesFrame(s, s');
    SameControl(s, s');
    QuietFrame(s, s', p);
    ScanFrame(s, s');
  }

  lemma QuiesceInv(s: State, m: ScanMove)
    requires Inv(s) && Enabled(s, Quiesce(m))
    ensures Inv(Step(s, Quiesce(m))) && QuietKept(s, Step(s, Quiesce(m)))
  {
    hide L.Inv, PlacesOk, L.PositionsOk, LaneControlOk;
    var s' := Step(s, Quiesce(m));
    if (s.scan.AtSlot? || s.scan.SawFlag?) && s.scan.slot < |s.lanes.lanes| {
      LaneAt(s, s.scan.slot);
      PublishingHeld(s, s.scan.slot);
    }
    QuietSame(s, s');
    assert ScanOk(s');
    assert QuietKept(s, s');
    ProgressInv(s, s');
  }

  lemma QuietSame(s: State, s': State)
    requires s'.stages == s.stages && s'.open == s.open && s'.lanes == s.lanes
    ensures forall q :: Sealed(s', q) == Sealed(s, q) && Quiet(s', q) == Quiet(s, q)
  {}

  lemma StepInv(s: State, a: Action)
    requires Inv(s)
    ensures Inv(Step(s, a)) && QuietKept(s, Step(s, a))
  {
    hide Inv, Sealed, Quiet;
    if Enabled(s, a) {
      match a
      case Close => CloseInv(s);
      case ControlStep(p, m) => ControlInv(s, p, m);
      case ProducerStep(p, m) => ProducerInv(s, p, m);
      case PublishRecord(p) => PublishInv(s, p);
      case GiveUp(p) => GiveUpInv(s, p);
      case LaneStep(p, m) => LaneStepInv(s, p, m);
      case WriteCell(p) => WriteInv(s, p);
      case Consume(m) => ConsumeInv(s, m);
      case Check => CheckInv(s);
      case Clear => ClearInv(s);
      case Acknowledge => AcknowledgeInv(s);
      case Quiesce(m) => QuiesceInv(s, m);
    }
  }

  /* --- What holds in every run ------------------------------------------------------------------------------ */

  /** A kernel as constructed. */
  ghost predicate Start(s: State) {
    && L.Start(s.lanes) && ShapeOk(s) && s.open
    && (forall c :: 0 <= c < |s.cells| ==> Clean(s.cells[c]))
    && (forall p :: 0 <= p < |s.stages| ==> s.stages[p].Fresh? && s.late[p] == 0)
    && s.taking.Untouched? && s.scan.NoScan? && s.faults == 0
  }

  lemma StartInv(s: State)
    requires Start(s)
    ensures Inv(s)
  {
    L.StartInv(s.lanes);
    hide L.Inv;
  }

  lemma {:induction false} InvRun(s: State, schedule: seq<Action>)
    requires Inv(s)
    ensures Inv(Run(s, schedule))
  {
    hide Inv, Step;
    if schedule != [] {
      InvRun(s, schedule[..|schedule| - 1]);
      StepInv(Run(s, schedule[..|schedule| - 1]), schedule[|schedule| - 1]);
    }
  }

  lemma RunInv(s: State, schedule: seq<Action>)
    requires Start(s)
    ensures Inv(Run(s, schedule))
  {
    hide Inv, Start;
    StartInv(s);
    InvRun(s, schedule);
  }

  /** No run ever takes a defensive branch: Begin finds its slot reset, the record is never oversize, the
      commit never fails, the lane never refuses the handle and the consumer's validation never fails. */
  lemma NoDefensiveBranch(s: State, schedule: seq<Action>)
    requires Start(s)
    ensures Run(s, schedule).faults == 0
  {
    RunInv(s, schedule);
    hide L.Inv, ShapeOk, CellsOk, EntriesOk, ControlsOk, ScanOk;
  }

  /** A cell outside its lane's published window that is not claimed is reset, empty and unowned; a cell
      inside it carries exactly the record that was admitted there, but for the head while the consumer has
      emptied it and not yet acknowledged. */
  lemma CellsFollowWindow(s: State, schedule: seq<Action>, p: nat, i: nat)
    requires Start(s) && p < |Run(s, schedule).lanes.lanes|
    requires var l := Run(s, schedule).lanes.lanes[p]; l.read <= i < l.read + l.capacity
    ensures var t := Run(s, schedule); var l := t.lanes.lanes[p];
            && l.capacity > 0 && L.CellOf(l, i) < |t.cells|
            && (i >= l.published && !(i == l.published && (l.holder.Claimed? || L.MidPublication(l.holder))) ==>
                  Clean(t.cells[L.CellOf(l, i)]))
            && (i < l.published && !(i == l.read && ClearedAt(t, p)) ==>
                  i < |l.admitted| && l.admitted[i] < |t.lanes.admissions| &&
                  Holds(t.cells[L.CellOf(l, i)], t.lanes.admissions[l.admitted[i]].record))
  {
    RunInv(s, schedule);
    var t := Run(s, schedule);
    LaneAt(t, p);
    hide L.Inv, ShapeOk, CellsOk, EntriesOk, ControlsOk, ScanOk;
    assert PlaceOk(t.lanes.lanes[p], t.stages[p], t.cells[L.CellOf(t.lanes.lanes[p], i)], i, t.lanes.admissions,
                   t.maximum, ClearedAt(t, p));
  }

  /** The consumer sees exactly the admitted records, in admission order. */
  lemma ConsumedInOrder(s: State, schedule: seq<Action>)
    requires Start(s)
    ensures var t := Run(s, schedule).lanes;
            && |t.acknowledged| == t.next <= t.accepted == |t.admissions|
            && forall k :: 0 <= k < t.next ==> t.acknowledged[k] == L.Envelope(t.admissions[k].record, k)
  {
    RunInv(s, schedule);
    hide ShapeOk, CellsOk, EntriesOk, ControlsOk, ScanOk, L.LaneOk;
  }

  /* --- Closing admission ------------------------------------------------------------------------------------- */

  /** Closing is for good, and from then on a lane's late counter is what its admissions grow by. */
  predicate LateCounts(s: State, s': State) {
    && !s'.open && |s'.late| == |s.late| && |s'.lanes.lanes| == |s.lanes.lanes|
    && forall p :: 0 <= p < |s.lanes.lanes| && p < |s.late| ==>
         |s'.lanes.lanes[p].admitted| - s'.late[p] == |s.lanes.lanes[p].admitted| - s.late[p]
  }

  lemma ClosedStep(s: State, a: Action)
    requires Inv(s) && !s.open
    ensures LateCounts(s, Step(s, a))
  {
    hide L.Inv, CellsOk, EntriesOk, ControlsOk, ScanOk, Produce, L.Consumed, L.CanConsume, Controlled, Scanned;
    match a
    case LaneStep(p, m) =>
      if Enabled(s, a) {
        MovedAdmitted(s.lanes.lanes[p], m);
        hide L.Moved;
      }
    case _ =>
  }

  lemma MovedAdmitted(l: L.Lane, m: L.LaneMove)
    requires L.CanMove(l, m)
    ensures L.Moved(l, m).admitted == l.admitted
  {}

  lemma {:induction false} ClosedRun(s: State, schedule: seq<Action>)
    requires Inv(s) && !s.open
    ensures LateCounts(s, Run(s, schedule))
  {
    hide Inv, Step;
    if schedule != [] {
      var before := schedule[..|schedule| - 1];
      InvRun(s, before);
      ClosedRun(s, before);
      ClosedStep(Run(s, before), schedule[|schedule| - 1]);
    }
  }

  lemma LateBound(s: State, p: nat)
    requires Inv(s) && p < |s.late|
    ensures |s.late| == |s.lanes.lanes| && s.late[p] <= 1
  {
    hide L.Inv, CellsOk, EntriesOk, ScanOk;
    assert LaneControlOk(s, p);
  }

  /** After CloseAdmission each lane accepts at most one more record, whatever happens from then on. */
  lemma AtMostOneLateRecord(s: State, schedule: seq<Action>, more: seq<Action>, p: nat)
    requires Start(s) && !Run(s, schedule).open && p < |Run(s, schedule).lanes.lanes|
    ensures var t := Run(s, schedule); var u := Run(t, more);
            && !u.open && p < |u.lanes.lanes|
            && |u.lanes.lanes[p].admitted| <= |t.lanes.lanes[p].admitted| + 1
  {
    hide Inv, Start, Run;
    RunInv(s, schedule);
    var t := Run(s, schedule);
    InvRun(t, more);
    ClosedRun(t, more);
    LanesCounted(t);
    LateBound(Run(t, more), p);
  }

  lemma LanesCounted(s: State)
    requires Inv(s)
    ensures |s.late| == |s.lanes.lanes| == |s.stages|
  {
    hide L.Inv, CellsOk, EntriesOk, ControlsOk, ScanOk;
  }

  ghost predicate AllQuiet(s: State) {
    forall p :: 0 <= p < |s.lanes.lanes| ==> Quiet(s, p)
  }

  lemma QuietRecord(s: State, k: nat)
    requires Inv(s) && AllQuiet(s) && k < s.lanes.accepted
    ensures k < s.lanes.next
  {
    hide ShapeOk, CellsOk, EntriesOk, ControlsOk, ScanOk, L.CellsOk, L.ConsumerOk;
    var a := s.lanes.admissions[k];
    assert Quiet(s, a.lane);
    assert L.LaneOk(s.lanes.lanes[a.lane], a.lane, s.lanes.cells, s.lanes.admissions, s.lanes.next);
    assert s.lanes.lanes[a.lane].admitted[a.position] == k;
  }

  /** With every lane quiet, everything admitted has been acknowledged. */
  lemma QuietMeansConsumed(s: State)
    requires Inv(s) && AllQuiet(s)
    ensures s.lanes.accepted == s.lanes.next
  {
    hide ShapeOk, CellsOk, EntriesOk, ControlsOk, ScanOk, L.LaneOk, AllQuiet;
    if s.lanes.accepted > 0 {
      QuietRecord(s, s.lanes.accepted - 1);
    }
  }

  /** Nothing more is admitted once every lane is quiet. */
  lemma QuietStep(s: State, a: Action)
    requires Inv(s) && AllQuiet(s)
    ensures AllQuiet(Step(s, a)) && Step(s, a).lanes.accepted == s.lanes.accepted
  {
    StepInv(s, a);
    LanesKept(s, a);
    if a.PublishRecord? && a.p < |s.lanes.lanes| {
      QuietCannotPublish(s, a.p);
    }
    hide Inv, Sealed, Quiet, Produce, Controlled, Scanned, Valid;
  }

  lemma QuietCannotPublish(s: State, p: nat)
    requires Quiet(s, p)
    ensures !Enabled(s, PublishRecord(p))
  {}

  lemma LanesKept(s: State, a: Action)
    ensures |Step(s, a).lanes.lanes| == |s.lanes.lanes|
    ensures !a.PublishRecord? ==> Step(s, a).lanes.accepted == s.lanes.accepted
  {
    hide Produce, Controlled, Scanned, Valid, L.Moved, L.Consumed;
  }

  lemma {:induction false} QuietRun(s: State, schedule: seq<Action>)
    requires Inv(s) && AllQuiet(s)
    ensures AllQuiet(Run(s, schedule)) && Run(s, schedule).lanes.accepted == s.lanes.accepted
  {
    hide Inv, Step, AllQuiet;
    if schedule != [] {
      var before := schedule[..|schedule| - 1];
      InvRun(s, before);
      QuietRun(s, before);
      QuietStep(Run(s, before), schedule[|schedule| - 1]);
    }
  }

  lemma AnsweredQuiet(s: State)
    requires Inv(s) && s.scan == Answered(true, true)
    ensures AllQuiet(s)
  {
    hide L.Inv, ShapeOk, CellsOk, EntriesOk, ControlsOk, Quiet;
  }

  /** Once IsQuiescent, begun after admission closed, has answered true, the accepted count never changes
      again and everything accepted has been consumed; no lane by lane race spoils the answer. */
  lemma QuiescenceIsFinal(s: State, schedule: seq<Action>, more: seq<Action>)
    requires Start(s) && Run(s, schedule).scan == Answered(true, true)
    ensures var t := Run(s, schedule); var u := Run(t, more);
            t.lanes.accepted == u.lanes.accepted == t.lanes.next == u.lanes.next
  {
    hide Inv, Start, Run, AllQuiet;
    RunInv(s, schedule);
    var t := Run(s, schedule);
    AnsweredQuiet(t);
    QuietMeansConsumed(t);
    QuietRun(t, more);
    InvRun(t, more);
    QuietMeansConsumed(Run(t, more));
  }

  /** In every continuation of a run whose scan answered so, admission is closed and the consumer has acknowledged as
      many records as were ever accepted. */
  lemma QuiescentAnswerHolds(s: State, schedule: seq<Action>, more: seq<Action>)
    requires Start(s) && Run(s, schedule).scan == Answered(true, true)
    ensures var u := Run(Run(s, schedule), more);
            !u.open && |u.lanes.acknowledged| == u.lanes.accepted
  {
    hide Inv, Start, Run, AllQuiet;
    RunInv(s, schedule);
    var t := Run(s, schedule);
    AnsweredClosed(t);
    ClosedRun(t, more);
    QuiescenceIsFinal(s, schedule, more);
    InvRun(t, more);
    AcknowledgedCount(Run(t, more));
  }

  lemma AnsweredClosed(s: State)
    requires Inv(s) && s.scan == Answered(true, true)
    ensures !s.open
  {
    hide L.Inv, ShapeOk, CellsOk, EntriesOk, ControlsOk, Quiet;
  }

  lemma AcknowledgedCount(s: State)
    requires Inv(s)
    ensures |s.lanes.acknowledged| == s.lanes.next
  {
    hide ShapeOk, CellsOk, EntriesOk, ControlsOk, ScanOk, L.LaneOk;
  }
}
