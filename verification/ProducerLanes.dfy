/** Producer lanes (src/producer/producer_lanes.hpp).

Every producer owns one bounded ring of cells, its lane. One global counter hands out admission
sequences, and one consumer takes the records of all lanes in exact sequence order.

The lanes are modelled as a state machine whose actions are single atomic accesses (with the
accesses to thread-private data that follow them). A schedule is any sequence of actions; an action
that is not enabled leaves the state unchanged, so every schedule denotes an interleaving.
*/
module ProducerLanes {
  import opened Options
  import opened RingArithmetic

  const MAXIMUM_PRODUCER_SLOTS: nat := 32
  const MAXIMUM_INGRESS_CELLS: nat := 64

  datatype RecordHandle = RecordHandle(
    slotIndex: nat, producerIndex: nat, generation: nat, serializedBytes: nat, chargeBytes: nat)

  datatype Envelope = Envelope(record: RecordHandle, sequence: nat)

  predicate IsValid(record: RecordHandle) {
    && record.serializedBytes != 0
    && record.chargeBytes >= record.serializedBytes
    && record.slotIndex < MAXIMUM_INGRESS_CELLS
    && record.producerIndex < MAXIMUM_PRODUCER_SLOTS
  }

  /** The thread, if any, that holds a lane's publishing flag, and how far its call has come. */
  datatype Holder =
    | Nobody
    | Testing                                          // flag set, positions not read
    | Rejected                                         // the lane was full
    | Claimed(position: nat)                           // owns a PublicationClaim
    | Sequenced(position: nat, envelope: Envelope)     // sequence allocated, cell not written
    | Written(position: nat)                           // cell written
    | Advanced(position: nat)                          // write_position moved
    | Stored                                           // published_position moved

  /** `admitted` is a history variable: the sequence allocated at each position of the lane. */
  datatype Lane = Lane(
    offset: nat, capacity: nat, read: nat, published: nat, write: nat, publishing: bool,
    holder: Holder, admitted: seq<nat>)

  /** The consumer's progress through TryClaimConsumption. `owed` is a history variable: the next
      sequence was at the head of some lane when the scan began. */
  datatype Consumer =
    | Resting
    | Scanning(lane: nat, later: bool, owed: bool)
    | Inspecting(lane: nat, read: nat, later: bool, owed: bool)
    | Holding(lane: nat, read: nat, envelope: Envelope)

  /** Where and with which record a sequence was allocated. */
  datatype Admission = Admission(lane: nat, position: nat, record: RecordHandle)

  /** `admissions` and `acknowledged` are history variables. */
  datatype State = State(
    lanes: seq<Lane>, cells: seq<Envelope>, accepted: nat, next: nat, claimActive: bool,
    consumer: Consumer, admissions: seq<Admission>, acknowledged: seq<Envelope>)

  /** Accesses that only move one lane's positions, flag and holder. */
  datatype LaneMove = SetFlag | ReadPositions | ClearFlag | Abandon | AdvanceWrite | StorePublished

  /** Accesses of the consumer that change nothing but its own progress. */
  datatype ConsumerMove = BeginScan | ScanLane | InspectHead | FinishScan | Cancel

  datatype Action =
    | Move(lane: nat, move: LaneMove)
    | AllocateSequence(lane: nat, record: RecordHandle)
    | WriteCell(lane: nat)
    | Consume(step: ConsumerMove)
    | Acknowledge

  function CellOf(lane: Lane, position: nat): nat
    requires lane.capacity > 0
  {
    lane.offset + position % lane.capacity
  }

  /** True once a sequence is allocated and until its record is published. */
  predicate MidPublication(holder: Holder) {
    holder.Sequenced? || holder.Written? || holder.Advanced?
  }

  predicate HeadIs(s: State, p: nat, sequence: nat)
    requires p < |s.lanes|
  {
    var lane := s.lanes[p];
    && lane.read < lane.published
    && lane.capacity > 0
    && CellOf(lane, lane.read) < |s.cells|
    && s.cells[CellOf(lane, lane.read)].sequence == sequence
  }

  predicate HasHead(s: State, from: nat, sequence: nat) {
    exists p :: from <= p < |s.lanes| && HeadIs(s, p, sequence)
  }

  /* --- The actions ------------------------------------------------------------------------- */

  predicate CanMove(l: Lane, m: LaneMove) {
    match m
    case SetFlag => !l.publishing
    case ReadPositions => l.holder.Testing?
    case ClearFlag => l.holder.Rejected? || l.holder.Stored?
    case Abandon => l.holder.Claimed?
    case AdvanceWrite => l.holder.Written?
    case StorePublished => l.holder.Advanced?
  }

  function Moved(l: Lane, m: LaneMove): Lane
    requires CanMove(l, m)
  {
    match m
    case SetFlag => l.(publishing := true, holder := Testing)
    case ReadPositions =>
      l.(holder := if l.write - l.read >= l.capacity then Rejected else Claimed(l.write))
    case ClearFlag => l.(publishing := false, holder := Nobody)
    case Abandon => l.(publishing := false, holder := Nobody)
    case AdvanceWrite => l.(write := l.holder.position + 1, holder := Advanced(l.holder.position))
    case StorePublished => l.(published := l.holder.position + 1, holder := Stored)
  }

  predicate CanConsume(s: State, m: ConsumerMove) {
    match m
    case BeginScan => s.consumer.Resting? && !s.claimActive
    case ScanLane => s.consumer.Scanning? && s.consumer.lane < |s.lanes|
    case InspectHead =>
      && s.consumer.Inspecting? && s.consumer.lane < |s.lanes|
      && s.lanes[s.consumer.lane].capacity > 0
      && CellOf(s.lanes[s.consumer.lane], s.consumer.read) < |s.cells|
    case FinishScan => s.consumer.Scanning? && s.consumer.lane == |s.lanes|
    case Cancel => s.consumer.Holding?
  }

  function Consumed(s: State, m: ConsumerMove): Consumer
    requires CanConsume(s, m)
  {
    var c := s.consumer;
    match m
    case BeginScan => Scanning(0, false, HasHead(s, 0, s.next))
    case ScanLane =>
      var lane := s.lanes[c.lane];
      if lane.published == lane.read then Scanning(c.lane + 1, c.later, c.owed)
      else Inspecting(c.lane, lane.read, c.later, c.owed)
    case InspectHead =>
      var envelope := s.cells[CellOf(s.lanes[c.lane], c.read)];
      if envelope.sequence != s.next then Scanning(c.lane + 1, true, c.owed)
      else Holding(c.lane, c.read, envelope)
    case FinishScan => Resting
    case Cancel => Resting
  }

  predicate Enabled(s: State, a: Action) {
    match a
    case Move(p, m) => p < |s.lanes| && CanMove(s.lanes[p], m)
    case AllocateSequence(p, record) =>
      && p < |s.lanes| && s.lanes[p].holder.Claimed? && s.lanes[p].capacity > 0
      && IsValid(record) && record.producerIndex == p
      && record.slotIndex == CellOf(s.lanes[p], s.lanes[p].holder.position)
    case WriteCell(p) =>
      && p < |s.lanes| && s.lanes[p].holder.Sequenced? && s.lanes[p].capacity > 0
      && CellOf(s.lanes[p], s.lanes[p].holder.position) < |s.cells|
    case Consume(m) => CanConsume(s, m)
    case Acknowledge => s.consumer.Holding? && s.consumer.lane < |s.lanes|
  }

  function Step(s: State, a: Action): State {
    if !Enabled(s, a) then s else
    match a
    case Move(p, m) => SetLane(s, p, Moved(s.lanes[p], m))
    case AllocateSequence(p, record) => Allocated(s, p, record)
    case WriteCell(p) => CellWritten(s, p)
    case Consume(m) => s.(consumer := Consumed(s, m), claimActive := Consumed(s, m).Holding?)
    case Acknowledge => Acknowledged(s)
  }

  function SetLane(s: State, p: nat, lane: Lane): State
    requires p < |s.lanes|
  {
    s.(lanes := s.lanes[p := lane])
  }

  function Allocated(s: State, p: nat, record: RecordHandle): State
    requires Enabled(s, AllocateSequence(p, record))
  {
    var lane := s.lanes[p];
    SetLane(s, p, lane.(holder := Sequenced(lane.holder.position, Envelope(record, s.accepted)),
                        admitted := lane.admitted + [s.accepted]))
    .(accepted := s.accepted + 1,
      admissions := s.admissions + [Admission(p, lane.holder.position, record)])
  }

  function CellWritten(s: State, p: nat): State
    requires Enabled(s, WriteCell(p))
  {
    var lane := s.lanes[p];
    SetLane(s, p, lane.(holder := Written(lane.holder.position)))
    .(cells := s.cells[CellOf(lane, lane.holder.position) := lane.holder.envelope])
  }

  function Acknowledged(s: State): State
    requires Enabled(s, Acknowledge)
  {
    var c := s.consumer;
    SetLane(s, c.lane, s.lanes[c.lane].(read := c.read + 1))
    .(next := s.next + 1, claimActive := false, consumer := Resting,
      acknowledged := s.acknowledged + [c.envelope])
  }

  function Run(s: State, schedule: seq<Action>): State {
    if schedule == [] then s
    else Step(Run(s, schedule[..|schedule| - 1]), schedule[|schedule| - 1])
  }

  /** The status TryClaimConsumption reports when a scan ends without a record. */
  datatype ConsumptionStatus = Record | Empty | Pending

  function ScanStatus(s: State): ConsumptionStatus
    requires s.consumer.Scanning?
  {
    if s.consumer.later || s.accepted != s.next then Pending else Empty
  }

  /* --- The invariant ----------------------------------------------------------------------- */

  ghost predicate Increasing(values: seq<nat>) {
    forall i, j :: 0 <= i < j < |values| ==> values[i] < values[j]
  }

  /** The positions of a lane agree with its holder, and its window never exceeds its capacity. */
  ghost predicate PositionsOk(l: Lane) {
    && l.capacity > 0
    && l.read <= l.published <= l.read + l.capacity
    && (l.publishing <==> !l.holder.Nobody?)
    && l.write == l.published + (if l.holder.Advanced? then 1 else 0)
    && |l.admitted| == l.published + (if MidPublication(l.holder) then 1 else 0)
    && (l.holder.Claimed? || MidPublication(l.holder) ==>
          l.holder.position == l.published && l.published < l.read + l.capacity)
  }

  /** Everything admitted to lane `p` is in the log under its own sequence, in increasing order,
      and split by the consumer's next sequence exactly at the lane's read position. */
  ghost predicate AdmittedOk(l: Lane, p: nat, log: seq<Admission>, next: nat) {
    && Increasing(l.admitted)
    && (forall i :: 0 <= i < |l.admitted| ==>
          && l.admitted[i] < |log|
          && log[l.admitted[i]].lane == p
          && log[l.admitted[i]].position == i
          && (l.admitted[i] < next <==> i < l.read))
  }

  /** The cell of every published, unacknowledged position holds the record that was admitted. */
  ghost predicate CellsOk(l: Lane, cells: seq<Envelope>, log: seq<Admission>)
    requires l.capacity > 0
  {
    && l.offset + l.capacity <= |cells|
    && (forall i {:trigger l.admitted[i]} ::
          l.read <= i < |l.admitted| && (i < l.published || !l.holder.Sequenced?) &&
          l.admitted[i] < |log| ==>
          cells[CellOf(l, i)] == Envelope(log[l.admitted[i]].record, l.admitted[i]))
    && (l.holder.Sequenced? && l.published < |l.admitted| && l.admitted[l.published] < |log| ==>
          l.holder.envelope == Envelope(log[l.admitted[l.published]].record, l.admitted[l.published]))
  }

  ghost predicate LaneOk(l: Lane, p: nat, cells: seq<Envelope>, log: seq<Admission>, next: nat) {
    && PositionsOk(l)
    && AdmittedOk(l, p, log, next)
    && CellsOk(l, cells, log)
  }

  /** Lane cell ranges follow each other, so they are disjoint. */
  ghost predicate Partitioned(lanes: seq<Lane>) {
    forall p, q :: 0 <= p < q < |lanes| ==> lanes[p].offset + lanes[p].capacity <= lanes[q].offset
  }

  /** Every logged admission sits in its lane at its position. */
  ghost predicate LogOk(s: State) {
    && |s.admissions| == s.accepted
    && (forall k :: 0 <= k < s.accepted ==>
          var a := s.admissions[k];
          && a.lane < |s.lanes|
          && a.position < |s.lanes[a.lane].admitted|
          && s.lanes[a.lane].admitted[a.position] == k)
  }

  ghost predicate AcknowledgedOk(s: State) {
    && s.next <= s.accepted == |s.admissions|
    && |s.acknowledged| == s.next
    && (forall k :: 0 <= k < s.next ==> s.acknowledged[k] == Envelope(s.admissions[k].record, k))
  }

  ghost predicate ConsumerOk(s: State) {
    var c := s.consumer;
    && (s.claimActive <==> c.Holding?)
    && (c.Scanning? ==> c.lane <= |s.lanes|)
    && (c.Inspecting? ==> c.lane < |s.lanes| && c.read == s.lanes[c.lane].read < s.lanes[c.lane].published)
    && ((c.Scanning? || c.Inspecting?) && c.later ==> s.next < s.accepted)
    && ((c.Scanning? || c.Inspecting?) && c.owed ==> HasHead(s, c.lane, s.next))
    && (c.Holding? ==>
          && c.lane < |s.lanes|
          && c.read == s.lanes[c.lane].read < s.lanes[c.lane].published
          && s.next < |s.admissions|
          && s.admissions[s.next].lane == c.lane
          && s.admissions[s.next].position == c.read
          && c.envelope == Envelope(s.admissions[s.next].record, s.next))
  }

  ghost predicate Inv(s: State) {
    && Partitioned(s.lanes)
    && (forall p :: 0 <= p < |s.lanes| ==> LaneOk(s.lanes[p], p, s.cells, s.admissions, s.next))
    && LogOk(s)
    && AcknowledgedOk(s)
    && ConsumerOk(s)
  }

  /* --- Start state: the constructor's partition -------------------------------------------- */

  ghost predicate Start(s: State) {
    && (forall p :: 0 <= p < |s.lanes| ==>
          var l := s.lanes[p];
          && l.capacity > 0 && l.offset + l.capacity <= |s.cells|
          && l.read == l.published == l.write == 0
          && !l.publishing && l.holder.Nobody? && l.admitted == [])
    && Partitioned(s.lanes)
    && s.accepted == s.next == 0 && !s.claimActive && s.consumer.Resting?
    && s.admissions == [] && s.acknowledged == []
  }

  lemma StartInv(s: State)
    requires Start(s)
    ensures Inv(s)
  {
  }

  /* --- Every action preserves the invariant ------------------------------------------------ */

  /** A lane is untouched by log growth, by writes outside its cells and by other lanes. */
  lemma LaneFrame(l: Lane, p: nat, cells: seq<Envelope>, log: seq<Admission>, next: nat,
                  cells': seq<Envelope>, log': seq<Admission>)
    requires LaneOk(l, p, cells, log, next)
    requires |cells'| == |cells|
    requires forall k :: l.offset <= k < l.offset + l.capacity ==> cells'[k] == cells[k]
    requires log <= log'
    ensures LaneOk(l, p, cells', log', next)
  {
  }

  lemma MovedLane(l: Lane, m: LaneMove, p: nat, cells: seq<Envelope>, log: seq<Admission>, next: nat)
    requires LaneOk(l, p, cells, log, next) && CanMove(l, m)
    ensures LaneOk(Moved(l, m), p, cells, log, next)
  {
  }

  /** Actions that change one lane and leave cells, log, sequences and read positions alone. */
  lemma LocalStep(s: State, p: nat, l: Lane)
    requires Inv(s) && p < |s.lanes|
    requires LaneOk(l, p, s.cells, s.admissions, s.next)
    requires l.offset == s.lanes[p].offset && l.capacity == s.lanes[p].capacity
    requires l.admitted == s.lanes[p].admitted
    requires l.read == s.lanes[p].read && l.published >= s.lanes[p].published
    ensures Inv(SetLane(s, p, l))
  {
    var s' := SetLane(s, p, l);
    HeadFrame(s, s');
  }

  /** Heads that were published stay published. */
  lemma HeadFrame(s: State, s': State)
    requires |s'.lanes| == |s.lanes| && |s'.cells| == |s.cells|
    requires forall p :: 0 <= p < |s.lanes| ==>
      var l, l' := s.lanes[p], s'.lanes[p];
      && l'.offset == l.offset && l'.capacity == l.capacity
      && l'.read == l.read && l'.published >= l.published
      && (l.capacity > 0 && l.read < l.published && CellOf(l, l.read) < |s.cells| ==>
            s'.cells[CellOf(l, l.read)] == s.cells[CellOf(l, l.read)])
    ensures forall from: nat, k: nat :: HasHead(s, from, k) ==> HasHead(s', from, k)
  {
    forall from: nat, k: nat | HasHead(s, from, k)
      ensures HasHead(s', from, k)
    {
      var p :| from <= p < |s.lanes| && HeadIs(s, p, k);
      assert HeadIs(s', p, k);
    }
  }

  lemma MoveStep(s: State, p: nat, m: LaneMove)
    requires Inv(s) && Enabled(s, Move(p, m))
    ensures Inv(Step(s, Move(p, m)))
  {
    MovedLane(s.lanes[p], m, p, s.cells, s.admissions, s.next);
    LocalStep(s, p, Moved(s.lanes[p], m));
  }

  lemma AllocatedLane(l: Lane, p: nat, cells: seq<Envelope>, log: seq<Admission>, next: nat,
                      record: RecordHandle)
    requires LaneOk(l, p, cells, log, next) && l.holder.Claimed? && next <= |log|
    ensures LaneOk(l.(holder := Sequenced(l.holder.position, Envelope(record, |log|)),
                      admitted := l.admitted + [|log|]),
                   p, cells, log + [Admission(p, l.holder.position, record)], next)
  {
  }

  lemma AllocateStep(s: State, p: nat, record: RecordHandle)
    requires Inv(s) && Enabled(s, AllocateSequence(p, record))
    ensures Inv(Allocated(s, p, record))
  {
    var s' := Allocated(s, p, record);
    forall q | 0 <= q < |s.lanes|
      ensures LaneOk(s'.lanes[q], q, s'.cells, s'.admissions, s'.next)
    {
      if q == p {
        AllocatedLane(s.lanes[p], p, s.cells, s.admissions, s.next, record);
      } else {
        LaneFrame(s.lanes[q], q, s.cells, s.admissions, s.next, s'.cells, s'.admissions);
      }
    }
    AllocatedLog(s, p, record);
    HeadFrame(s, s');
  }

  lemma AllocatedLog(s: State, p: nat, record: RecordHandle)
    requires LogOk(s) && AcknowledgedOk(s) && Enabled(s, AllocateSequence(p, record))
    requires PositionsOk(s.lanes[p])
    ensures LogOk(Allocated(s, p, record)) && AcknowledgedOk(Allocated(s, p, record))
  {
  }

  /** The cell a holder writes lies outside its lane's published window. */
  lemma WrittenLane(l: Lane, p: nat, cells: seq<Envelope>, log: seq<Admission>, next: nat)
    requires LaneOk(l, p, cells, log, next) && l.holder.Sequenced?
    ensures CellOf(l, l.holder.position) < |cells|
    ensures forall i :: l.read <= i < l.published ==> CellOf(l, i) != CellOf(l, l.holder.position)
    ensures LaneOk(l.(holder := Written(l.holder.position)), p,
                   cells[CellOf(l, l.holder.position) := l.holder.envelope], log, next)
  {
    forall i | l.read <= i < l.published
      ensures CellOf(l, i) != CellOf(l, l.holder.position)
    {
      DistinctCells(l.capacity, i, l.published);
    }
  }

  lemma WriteStep(s: State, p: nat)
    requires Inv(s) && Enabled(s, WriteCell(p))
    ensures Inv(CellWritten(s, p))
  {
    var s' := CellWritten(s, p);
    WrittenLane(s.lanes[p], p, s.cells, s.admissions, s.next);
    hide LaneOk;
    forall q | 0 <= q < |s.lanes|
      ensures LaneOk(s'.lanes[q], q, s'.cells, s'.admissions, s'.next)
    {
      if q != p {
        LaneFrame(s.lanes[q], q, s.cells, s.admissions, s.next, s'.cells, s'.admissions);
      }
    }
    WrittenHeads(s, p);
  }

  lemma WrittenHeads(s: State, p: nat)
    requires Inv(s) && Enabled(s, WriteCell(p))
    ensures ConsumerOk(CellWritten(s, p))
  {
    var s' := CellWritten(s, p);
    WrittenLane(s.lanes[p], p, s.cells, s.admissions, s.next);
    InvPositions(s);
    hide AdmittedOk, CellsOk, LogOk, AcknowledgedOk;
    HeadFrame(s, s');
  }

  /** The head of a lane is the admission recorded for its read position. */
  lemma HeadAdmission(s: State, p: nat)
    requires Inv(s) && p < |s.lanes| && s.lanes[p].read < s.lanes[p].published
    ensures CellOf(s.lanes[p], s.lanes[p].read) < |s.cells|
    ensures var e := s.cells[CellOf(s.lanes[p], s.lanes[p].read)];
            && s.next <= e.sequence < s.accepted
            && e == Envelope(s.admissions[e.sequence].record, e.sequence)
            && s.admissions[e.sequence].lane == p
            && s.admissions[e.sequence].position == s.lanes[p].read
  {
    assert LaneOk(s.lanes[p], p, s.cells, s.admissions, s.next);
    assert s.lanes[p].admitted[s.lanes[p].read] < |s.admissions|;
  }

  /** Heads and lanes do not depend on the consumer's own progress. */
  lemma ConsumerOnly(s: State, s': State)
    requires Inv(s) && s' == s.(consumer := s'.consumer, claimActive := s'.claimActive)
    requires ConsumerOk(s')
    ensures Inv(s')
  {
  }

  lemma ScanStep(s: State, m: ConsumerMove)
    requires ConsumerOk(s) && CanConsume(s, m) && (m.BeginScan? || m.ScanLane?)
    requires m.ScanLane? ==> PositionsOk(s.lanes[s.consumer.lane])
    ensures ConsumerOk(Step(s, Consume(m)))
  {
    var s', c := Step(s, Consume(m)), s.consumer;
    if s'.consumer.owed {
      var p :| (if c.Scanning? then c.lane else 0) <= p < |s.lanes| && HeadIs(s, p, s.next);
      assert HeadIs(s', p, s.next);
    }
  }

  lemma InspectStep(s: State)
    requires Inv(s) && CanConsume(s, InspectHead)
    ensures ConsumerOk(Step(s, Consume(InspectHead)))
  {
    var s', c := Step(s, Consume(InspectHead)), s.consumer;
    HeadAdmission(s, c.lane);
    if c.owed && s'.consumer.Scanning? {
      var p :| c.lane <= p < |s.lanes| && HeadIs(s, p, s.next);
      assert p != c.lane && HeadIs(s', p, s.next);
    }
  }

  lemma ConsumerStep(s: State, m: ConsumerMove)
    requires Inv(s) && CanConsume(s, m)
    ensures Inv(Step(s, Consume(m)))
  {
    match m {
      case BeginScan => ScanStep(s, m);
      case ScanLane => ScanStep(s, m);
      case InspectHead => InspectStep(s);
      case FinishScan =>
      case Cancel =>
    }
    ConsumerOnly(s, Step(s, Consume(m)));
  }

  lemma AcknowledgedLane(l: Lane, q: nat, cells: seq<Envelope>, log: seq<Admission>, next: nat, p: nat)
    requires LaneOk(l, q, cells, log, next)
    requires next < |log| && log[next].lane == p
    requires q == p ==> l.read < l.published && l.admitted[l.read] == next
    ensures LaneOk(if q == p then l.(read := l.read + 1) else l, q, cells, log, next + 1)
  {
    var l' := if q == p then l.(read := l.read + 1) else l;
    forall i | 0 <= i < |l.admitted|
      ensures l.admitted[i] < next + 1 <==> i < l'.read
    {
      assert l.admitted[i] == next ==> log[next].lane == q && log[next].position == i;
    }
    assert CellsOk(l', cells, log);
  }

  lemma AcknowledgeStep(s: State)
    requires Inv(s) && Enabled(s, Acknowledge)
    ensures Inv(Acknowledged(s))
  {
    hide LaneOk, AcknowledgedOk;
    var s', p := Acknowledged(s), s.consumer.lane;
    assert PositionsOk(s.lanes[p]) by { InvPositions(s); }
    forall q | 0 <= q < |s.lanes|
      ensures LaneOk(s'.lanes[q], q, s'.cells, s'.admissions, s'.next)
    {
      AcknowledgedLane(s.lanes[q], q, s.cells, s.admissions, s.next, p);
    }
    AcknowledgedHistory(s);
  }

  lemma AcknowledgedHistory(s: State)
    requires LogOk(s) && AcknowledgedOk(s) && ConsumerOk(s) && Enabled(s, Acknowledge)
    ensures LogOk(Acknowledged(s)) && AcknowledgedOk(Acknowledged(s)) && ConsumerOk(Acknowledged(s))
  {
  }

  lemma InvStep(s: State, a: Action)
    requires Inv(s)
    ensures Inv(Step(s, a))
  {
    if Enabled(s, a) {
      match a {
        case Move(p, m) => MoveStep(s, p, m);
        case AllocateSequence(p, record) => AllocateStep(s, p, record);
        case WriteCell(p) => WriteStep(s, p);
        case Consume(m) => ConsumerStep(s, m);
        case Acknowledge => AcknowledgeStep(s);
      }
    }
  }

  lemma {:induction false} InvRun(s: State, schedule: seq<Action>)
    requires Inv(s)
    ensures Inv(Run(s, schedule))
    decreases |schedule|
  {
    if schedule != [] {
      InvRun(s, schedule[..|schedule| - 1]);
      InvStep(Run(s, schedule[..|schedule| - 1]), schedule[|schedule| - 1]);
    }
  }

  /* --- What every interleaving guarantees -------------------------------------------------- */

  /** Acknowledged records carry the sequences 0, 1, 2, ... with no gap, loss or duplicate, and each
      is the record its producer handed over when the sequence was allocated. */
  lemma AcknowledgedInAdmissionOrder(s: State, schedule: seq<Action>)
    requires Start(s)
    ensures var t := Run(s, schedule);
            && |t.acknowledged| == t.next <= t.accepted == |t.admissions|
            && forall k :: 0 <= k < t.next ==>
                 t.acknowledged[k] == Envelope(t.admissions[k].record, k)
  {
    StartInv(s);
    InvRun(s, schedule);
  }

  /** One action never changes an allocated admission, an acknowledged record or a lane's layout. */
  lemma HistoryGrows(s: State, a: Action)
    ensures s.admissions <= Step(s, a).admissions
    ensures s.acknowledged <= Step(s, a).acknowledged
    ensures |Step(s, a).lanes| == |s.lanes|
    ensures forall p :: 0 <= p < |s.lanes| ==>
      var l, l' := s.lanes[p], Step(s, a).lanes[p];
      l'.offset == l.offset && l'.capacity == l.capacity && l.admitted <= l'.admitted
  {
  }

  lemma {:induction false} HistoryGrowsRun(s: State, schedule: seq<Action>)
    ensures s.admissions <= Run(s, schedule).admissions
    ensures s.acknowledged <= Run(s, schedule).acknowledged
    ensures |Run(s, schedule).lanes| == |s.lanes|
    ensures forall p :: 0 <= p < |s.lanes| ==>
      var l, l' := s.lanes[p], Run(s, schedule).lanes[p];
      l'.offset == l.offset && l'.capacity == l.capacity && l.admitted <= l'.admitted
    decreases |schedule|
  {
    if schedule != [] {
      HistoryGrowsRun(s, schedule[..|schedule| - 1]);
      HistoryGrows(Run(s, schedule[..|schedule| - 1]), schedule[|schedule| - 1]);
    }
  }

  lemma PositionsGrow(s: State, a: Action, p: nat)
    requires Inv(s) && p < |s.lanes|
    ensures |Step(s, a).lanes| == |s.lanes| && |Step(s, a).cells| == |s.cells|
    ensures s.lanes[p].read <= Step(s, a).lanes[p].read
    ensures s.lanes[p].published <= Step(s, a).lanes[p].published
  {
    InvPositions(s);
    hide Inv, Partitioned;
    match a {
      case Move(q, m) =>
        if Enabled(s, a) {
          MovedGrows(s.lanes[q], m);
          hide Moved, CanMove;
        }
      case AllocateSequence(_, _) =>
      case WriteCell(_) =>
      case Consume(_) =>
      case Acknowledge =>
    }
  }

  lemma MovedGrows(l: Lane, m: LaneMove)
    requires PositionsOk(l) && CanMove(l, m)
    ensures Moved(l, m).read == l.read && Moved(l, m).published >= l.published
  {
  }

  lemma InvPositions(s: State)
    requires Inv(s)
    ensures forall p :: 0 <= p < |s.lanes| ==> PositionsOk(s.lanes[p])
    ensures s.consumer.Holding? ==> s.consumer.lane < |s.lanes| && s.consumer.read == s.lanes[s.consumer.lane].read
  {
    hide AdmittedOk, CellsOk, PositionsOk, LogOk, AcknowledgedOk;
  }

  lemma {:induction false} PositionsGrowRun(s: State, schedule: seq<Action>, p: nat)
    requires Inv(s) && p < |s.lanes|
    ensures |Run(s, schedule).lanes| == |s.lanes| && |Run(s, schedule).cells| == |s.cells|
    ensures s.lanes[p].read <= Run(s, schedule).lanes[p].read
    ensures s.lanes[p].published <= Run(s, schedule).lanes[p].published
    decreases |schedule|
  {
    if schedule != [] {
      var before := schedule[..|schedule| - 1];
      PositionsGrowRun(s, before, p);
      InvRun(s, before);
      PositionsGrow(Run(s, before), schedule[|schedule| - 1], p);
    }
  }

  /** From its publication until its acknowledgement a position's cell keeps the same envelope,
      whatever the other threads do in between. */
  lemma PublishedCellStable(s: State, schedule: seq<Action>, p: nat, i: nat)
    requires Inv(s) && p < |s.lanes| && s.lanes[p].read <= i < s.lanes[p].published
    ensures var t := Run(s, schedule);
            && |t.lanes| == |s.lanes| && i < t.lanes[p].published
            && s.lanes[p].capacity > 0
            && CellOf(s.lanes[p], i) < |s.cells| == |t.cells|
            && (t.lanes[p].read <= i ==>
                  t.cells[CellOf(s.lanes[p], i)] == s.cells[CellOf(s.lanes[p], i)])
  {
    hide Inv, Run;
    var t := Run(s, schedule);
    InvRun(s, schedule);
    PositionsGrowRun(s, schedule, p);
    HistoryGrowsRun(s, schedule);
    CellHolds(s, p, i);
    if t.lanes[p].read <= i {
      CellHolds(t, p, i);
    }
  }

  /** A published position's cell holds the record admitted there. */
  lemma CellHolds(s: State, p: nat, i: nat)
    requires Inv(s) && p < |s.lanes| && s.lanes[p].read <= i < s.lanes[p].published
    ensures var l := s.lanes[p];
            && l.capacity > 0 && CellOf(l, i) < |s.cells| && i < |l.admitted| && l.admitted[i] < |s.admissions|
            && s.cells[CellOf(l, i)] == Envelope(s.admissions[l.admitted[i]].record, l.admitted[i])
  {
    hide LogOk, AcknowledgedOk, ConsumerOk, Partitioned;
    assert LaneOk(s.lanes[p], p, s.cells, s.admissions, s.next);
  }

  /** The consumer is never stuck: when no lane is between allocating a sequence and publishing its
      record, the next unacknowledged sequence is the head of some lane. */
  lemma NextIsSomeHead(s: State)
    requires Inv(s) && s.next < s.accepted
    requires forall p :: 0 <= p < |s.lanes| ==> !MidPublication(s.lanes[p].holder)
    ensures HasHead(s, 0, s.next)
  {
    var a := s.admissions[s.next];
    var l := s.lanes[a.lane];
    assert LaneOk(l, a.lane, s.cells, s.admissions, s.next);
    assert l.read <= a.position;
    assert l.admitted[l.read] >= s.next;
    assert HeadIs(s, a.lane, s.next);
  }

  /** A scan that began with the next sequence at some head cannot end without a record, however
      the producers interleave with it. */
  lemma OwedScanFindsRecord(s: State, schedule: seq<Action>)
    requires Start(s)
    ensures var t := Run(s, schedule);
            t.consumer.Scanning? && t.consumer.owed ==> !Enabled(t, Consume(FinishScan))
  {
    StartInv(s);
    InvRun(s, schedule);
  }

  /** A scan reports Empty exactly when every accepted record has been acknowledged at that load. */
  lemma EmptyMeansAllAcknowledged(s: State, schedule: seq<Action>)
    requires Start(s) && Enabled(Run(s, schedule), Consume(FinishScan))
    ensures var t := Run(s, schedule);
            ScanStatus(t) == Empty <==> |t.acknowledged| == t.accepted
  {
    StartInv(s);
    InvRun(s, schedule);
  }

  lemma RunAppend(s: State, schedule: seq<Action>, a: Action)
    ensures Run(s, schedule + [a]) == Step(Run(s, schedule), a)
  {
    assert (schedule + [a])[..|schedule|] == schedule;
  }

  /** States that some schedule reaches. */
  ghost predicate Reachable(s: State) {
    exists origin: State, schedule: seq<Action> :: Start(origin) && Run(origin, schedule) == s
  }

  lemma ReachableInv(s: State)
    requires Reachable(s)
    ensures Inv(s)
  {
    var origin: State, schedule :| Start(origin) && Run(origin, schedule) == s;
    StartInv(origin);
    InvRun(origin, schedule);
  }

  lemma ReachableStep(s: State, a: Action)
    requires Reachable(s)
    ensures Reachable(Step(s, a))
  {
    var origin: State, schedule :| Start(origin) && Run(origin, schedule) == s;
    RunAppend(origin, schedule, a);
  }

  lemma ReachableSteps(s: State, a: Action, b: Action)
    requires Reachable(s)
    ensures Reachable(Step(Step(s, a), b))
  {
    ReachableStep(s, a);
    ReachableStep(Step(s, a), b);
  }

  lemma ReachablePositions(s: State, p: nat)
    requires Reachable(s) && p < |s.lanes|
    ensures PositionsOk(s.lanes[p]) && s.lanes[p].offset + s.lanes[p].capacity <= |s.cells|
  {
    ReachableInv(s);
    assert LaneOk(s.lanes[p], p, s.cells, s.admissions, s.next);
  }

  /** The accesses of a TryClaimPublication call that obtains the flag. */
  function ClaimAttempt(s: State, p: nat): State {
    Step(Step(s, Move(p, SetFlag)), Move(p, ReadPositions))
  }

  lemma ClaimEffect(s: State, p: nat)
    requires Reachable(s) && p < |s.lanes| && !s.lanes[p].publishing
    ensures Reachable(ClaimAttempt(s, p)) && Reachable(Step(ClaimAttempt(s, p), Move(p, ClearFlag)))
    ensures var l := s.lanes[p];
            && l.capacity > 0 && l.write == l.published
            && (if l.published - l.read == l.capacity
                then Step(ClaimAttempt(s, p), Move(p, ClearFlag)) == SetLane(s, p, l.(holder := Nobody))
                else ClaimAttempt(s, p) == SetLane(s, p, l.(publishing := true, holder := Claimed(l.write))))
  {
    ReachableSteps(s, Move(p, SetFlag), Move(p, ReadPositions));
    ReachableStep(ClaimAttempt(s, p), Move(p, ClearFlag));
    ReachablePositions(s, p);
    hide Reachable;
  }

  /** The five accesses of a successful Publish call. */
  function Published(s: State, p: nat, record: RecordHandle): State {
    Step(Step(Step(Step(Step(s, AllocateSequence(p, record)), WriteCell(p)), Move(p, AdvanceWrite)),
              Move(p, StorePublished)), Move(p, ClearFlag))
  }

  lemma PublishedReachable(s: State, p: nat, record: RecordHandle)
    requires Reachable(s)
    ensures Reachable(Published(s, p, record))
  {
    var s1 := Step(s, AllocateSequence(p, record));
    var s2 := Step(s1, WriteCell(p));
    var s3 := Step(s2, Move(p, AdvanceWrite));
    ReachableStep(s, AllocateSequence(p, record));
    ReachableStep(s1, WriteCell(p));
    ReachableStep(s2, Move(p, AdvanceWrite));
    ReachableStep(s3, Move(p, StorePublished));
    ReachableStep(Step(s3, Move(p, StorePublished)), Move(p, ClearFlag));
  }

  lemma PublishedEffect(s: State, p: nat, record: RecordHandle)
    requires Enabled(s, AllocateSequence(p, record))
    requires PositionsOk(s.lanes[p]) && s.lanes[p].offset + s.lanes[p].capacity <= |s.cells|
    ensures var t, l := Published(s, p, record), s.lanes[p];
            && CellOf(l, l.write) < |s.cells|
            && t == s.(lanes := s.lanes[p := l.(write := l.write + 1, published := l.write + 1, publishing := false,
                                                holder := Nobody, admitted := l.admitted + [s.accepted])],
                       cells := s.cells[CellOf(l, l.write) := Envelope(record, s.accepted)],
                       accepted := s.accepted + 1,
                       admissions := s.admissions + [Admission(p, l.write, record)])
  {
    var l := s.lanes[p];
    var s1 := Step(s, AllocateSequence(p, record));
    assert s1 == Allocated(s, p, record);
    var s2 := Step(s1, WriteCell(p));
    assert s2 == CellWritten(s1, p);
    PublishedTail(s2, p);
  }

  lemma PublishCall(s: State, p: nat, record: RecordHandle)
    requires Reachable(s) && p < |s.lanes| && s.lanes[p].holder.Claimed? && s.lanes[p].capacity > 0
    requires IsValid(record) && record.producerIndex == p
    requires record.slotIndex == CellOf(s.lanes[p], s.lanes[p].holder.position)
    ensures Reachable(Published(s, p, record))
    ensures var t, l := Published(s, p, record), s.lanes[p];
            && l.holder == Claimed(l.write) && record.slotIndex < |s.cells|
            && t.lanes == s.lanes[p := l.(write := l.write + 1, published := l.write + 1, publishing := false,
                                          holder := Nobody, admitted := l.admitted + [s.accepted])]
            && t.cells == s.cells[record.slotIndex := Envelope(record, s.accepted)]
            && t.accepted == s.accepted + 1 && t.next == s.next && t.claimActive == s.claimActive
  {
    ReachablePositions(s, p);
    PublishedReachable(s, p, record);
    PublishedEffect(s, p, record);
  }

  lemma PublishedTail(s: State, p: nat)
    requires p < |s.lanes| && s.lanes[p].holder.Written?
    ensures var l := s.lanes[p];
            Step(Step(Step(s, Move(p, AdvanceWrite)), Move(p, StorePublished)), Move(p, ClearFlag)) ==
            SetLane(s, p, l.(write := l.holder.position + 1, published := l.holder.position + 1,
                             publishing := false, holder := Nobody))
  {
  }

  /** No call is publishing on the lane and none of its admitted records is unacknowledged. */
  ghost predicate Drained(s: State, p: nat)
    requires p < |s.lanes|
  {
    s.lanes[p].holder.Nobody? && |s.lanes[p].admitted| == s.lanes[p].read
  }

  lemma ConsumerIdle(s: State)
    requires Reachable(s) && !s.claimActive
    ensures !s.consumer.Holding?
  {
    ReachableInv(s);
  }

  lemma HoldingLane(s: State)
    requires Reachable(s) && s.consumer.Holding?
    ensures s.consumer.lane < |s.lanes|
  {
    ReachableInv(s);
  }

  /** Some lane before `p` has a published record. */
  predicate LaterBefore(s: State, p: nat) {
    exists q :: 0 <= q < p && q < |s.lanes| && s.lanes[q].read != s.lanes[q].published
  }

  /** What a scan learns from a head, and what it means for the whole. */
  lemma HeadFound(s: State, p: nat)
    requires p < |s.lanes| && HeadIs(s, p, s.next)
    ensures HasHead(s, 0, s.next) && s.lanes[p].capacity > 0 && CellOf(s.lanes[p], s.lanes[p].read) < |s.cells|
    ensures s.cells[CellOf(s.lanes[p], s.lanes[p].read)].sequence == s.next
  {}

  lemma NoHeadFound(s: State)
    requires forall p :: 0 <= p < |s.lanes| ==> !HeadIs(s, p, s.next)
    ensures !HasHead(s, 0, s.next)
  {}

  lemma HeadKept(s: State, s': State, p: nat)
    requires s'.lanes == s.lanes && s'.cells == s.cells && s'.next == s.next && p < |s.lanes|
    ensures HeadIs(s', p, s'.next) == HeadIs(s, p, s.next)
  {}

  /** A scan without interference reaches lane `p` when no earlier head carries the next sequence. */
  lemma {:induction false} ScanReaches(s: State, p: nat)
    requires Reachable(s) && CanConsume(s, BeginScan) && p <= |s.lanes|
    requires forall q :: 0 <= q < p ==> !HeadIs(s, q, s.next)
    ensures Reachable(s.(consumer := Scanning(p, LaterBefore(s, p), HasHead(s, 0, s.next))))
  {
    if p == 0 {
      ReachableStep(s, Consume(BeginScan));
    } else {
      ScanReaches(s, p - 1);
      var t := s.(consumer := Scanning(p - 1, LaterBefore(s, p - 1), HasHead(s, 0, s.next)));
      ReachablePositions(s, p - 1);
      SkipLane(s, p - 1, HasHead(s, 0, s.next));
      ReachableSteps(t, Consume(ScanLane), Consume(InspectHead));
    }
  }

  /** Passing a lane whose head is not the next record remembers whether it had a head at all. */
  lemma SkipLane(s: State, p: nat, owed: bool)
    requires p < |s.lanes| && PositionsOk(s.lanes[p]) && !s.claimActive
    requires s.lanes[p].offset + s.lanes[p].capacity <= |s.cells| && !HeadIs(s, p, s.next)
    ensures var t := s.(consumer := Scanning(p, LaterBefore(s, p), owed));
            Step(Step(t, Consume(ScanLane)), Consume(InspectHead)) ==
            s.(consumer := Scanning(p + 1, LaterBefore(s, p + 1), owed))
  {
    assert LaterBefore(s, p + 1) <==> LaterBefore(s, p) || s.lanes[p].read != s.lanes[p].published;
  }

  lemma ScanTakes(s: State, p: nat)
    requires Reachable(s) && CanConsume(s, BeginScan) && p < |s.lanes|
    requires forall q :: 0 <= q < p ==> !HeadIs(s, q, s.next)
    requires HeadIs(s, p, s.next)
    ensures Reachable(s.(consumer := Holding(p, s.lanes[p].read, s.cells[CellOf(s.lanes[p], s.lanes[p].read)]),
                         claimActive := true))
  {
    ScanReaches(s, p);
    var t := s.(consumer := Scanning(p, LaterBefore(s, p), HasHead(s, 0, s.next)));
    ReachableStep(t, Consume(ScanLane));
    ReachableStep(Step(t, Consume(ScanLane)), Consume(InspectHead));
  }

  /** A scan that ends without a record leaves the state as it was. */
  lemma ScanMisses(s: State)
    requires Reachable(s) && CanConsume(s, BeginScan)
    requires forall q :: 0 <= q < |s.lanes| ==> !HeadIs(s, q, s.next)
    ensures LaterBefore(s, |s.lanes|) ==> s.accepted != s.next
  {
    ScanReaches(s, |s.lanes|);
    ReachableInv(s.(consumer := Scanning(|s.lanes|, LaterBefore(s, |s.lanes|), HasHead(s, 0, s.next))));
  }

  /* --- The object -------------------------------------------------------------------------- */

  datatype LaneFields = LaneFields(
    offset: nat, capacity: nat, read: nat, published: nat, write: nat, publishing: bool)

  function Fields(l: Lane): LaneFields {
    LaneFields(l.offset, l.capacity, l.read, l.published, l.write, l.publishing)
  }

  datatype ClaimStatus = Full | Contended | Invalid

  datatype PublicationClaim =
    | NoClaim(status: ClaimStatus)
    | Claim(producer: nat, writePosition: nat, cellIndex: nat)

  datatype ConsumptionClaim =
    | NoRecord(consumption: ConsumptionStatus)
    | Taken(producer: nat, readPosition: nat, envelope: Envelope)

  /** First cell of lane `p` when `cells` cells are shared by `producers` lanes. */
  function LaneOffset(producers: nat, cells: nat, p: nat): nat
    requires producers > 0
  {
    cells / producers * p + (if p < cells % producers then p else cells % producers)
  }

  function FreshLane(producers: nat, cells: nat, p: nat): LaneFields
    requires 0 < producers <= cells
  {
    LaneFields(LaneOffset(producers, cells, p),
               cells / producers + (if p < cells % producers then 1 else 0), 0, 0, 0, false)
  }

  /** Lane ranges are non-empty, follow each other from cell 0, and end at the last cell. */
  lemma PartitionCovers(producers: nat, cells: nat, p: nat)
    requires 0 < producers <= cells
    ensures FreshLane(producers, cells, 0).offset == 0
    ensures FreshLane(producers, cells, p).offset + FreshLane(producers, cells, p).capacity
         == LaneOffset(producers, cells, p + 1)
    ensures LaneOffset(producers, cells, producers) == cells
    ensures FreshLane(producers, cells, p).capacity > 0
  {
    assert cells / producers * (p + 1) == cells / producers * p + cells / producers;
    assert cells / producers * producers + cells % producers == cells;
    assert cells / producers >= 1;
  }

  lemma PartitionOrdered(producers: nat, cells: nat, p: nat, q: nat)
    requires 0 < producers <= cells && p <= q
    ensures LaneOffset(producers, cells, p) <= LaneOffset(producers, cells, q)
  {
    assert cells / producers * (q - p) >= 0;
    assert cells / producers * q == cells / producers * p + cells / producers * (q - p);
  }

  method BuildLanes(producerCount: nat, ingressCells: nat) returns (table: array<LaneFields>)
    requires 0 < producerCount <= ingressCells
    ensures fresh(table) && table.Length == producerCount
    ensures forall p :: 0 <= p < producerCount ==> table[p] == FreshLane(producerCount, ingressCells, p)
  {
    table := new LaneFields[producerCount](_ => LaneFields(0, 0, 0, 0, 0, false));
    var minimumCapacity, extraLanes := ingressCells / producerCount, ingressCells % producerCount;
    PartitionCovers(producerCount, ingressCells, 0);
    var nextOffset := 0;
    for producer := 0 to producerCount
      invariant nextOffset == LaneOffset(producerCount, ingressCells, producer)
      invariant forall p :: 0 <= p < producer ==> table[p] == FreshLane(producerCount, ingressCells, p)
    {
      PartitionCovers(producerCount, ingressCells, producer);
      var capacity := minimumCapacity + (if producer < extraLanes then 1 else 0);
      table[producer] := LaneFields(nextOffset, capacity, 0, 0, 0, false);
      nextOffset := nextOffset + capacity;
    }
  }

  function FreshState(producers: nat, cells: seq<Envelope>): State
    requires 0 < producers <= |cells|
  {
    State(seq(producers, p requires 0 <= p =>
                var f := FreshLane(producers, |cells|, p);
                Lane(f.offset, f.capacity, 0, 0, 0, false, Nobody, [])),
          cells, 0, 0, false, Resting, [], [])
  }

  lemma FreshStateStarts(producers: nat, cells: seq<Envelope>)
    requires 0 < producers <= |cells|
    ensures Start(FreshState(producers, cells))
  {
    var s := FreshState(producers, cells);
    forall p | 0 <= p < producers
      ensures s.lanes[p].capacity > 0 && s.lanes[p].offset + s.lanes[p].capacity <= |cells|
    {
      PartitionCovers(producers, |cells|, p);
      PartitionOrdered(producers, |cells|, p + 1, producers);
    }
    forall p, q | 0 <= p < q < producers
      ensures s.lanes[p].offset + s.lanes[p].capacity <= s.lanes[q].offset
    {
      PartitionCovers(producers, |cells|, p);
      PartitionOrdered(producers, |cells|, p + 1, q);
    }
  }

  /** The lane table. `model` tracks the state machine above; each call performs the atomic actions
      named in its contract, here without interference from other threads. */
  class Lanes {
    var lanes: array<LaneFields>
    var cells: array<Envelope>
    var accepted: nat
    var next: nat
    var claimActive: bool
    ghost var model: State

    ghost predicate Valid()
      reads this, lanes, cells
    {
      && Reachable(model)
      && |model.lanes| == lanes.Length
      && (forall p :: 0 <= p < lanes.Length ==> lanes[p] == Fields(model.lanes[p]) && lanes[p].capacity > 0)
      && model.cells == cells[..]
      && model.accepted == accepted && model.next == next && model.claimActive == claimActive
    }

    constructor (producerCount: nat, ingressCells: nat)
      requires 0 < producerCount <= MAXIMUM_PRODUCER_SLOTS
      requires producerCount <= ingressCells <= MAXIMUM_INGRESS_CELLS
      ensures Valid() && fresh(lanes) && fresh(cells)
      ensures cells.Length == ingressCells && model == FreshState(producerCount, cells[..])
      ensures Start(model)
    {
      var table := BuildLanes(producerCount, ingressCells);
      var envelopes := new Envelope[ingressCells](_ => Envelope(RecordHandle(0, 0, 0, 0, 0), 0));
      lanes, cells := table, envelopes;
      accepted, next, claimActive := 0, 0, false;
      model := FreshState(producerCount, envelopes[..]);
      new;
      FreshStateStarts(producerCount, cells[..]);
      assert forall p :: 0 <= p < producerCount ==> model.lanes[p].capacity > 0;
      assert Run(model, []) == model;
    }

    /** Performs `a` on the ghost state. */
    ghost method Track(a: Action)
      requires Reachable(model)
      modifies this`model
      ensures model == Step(old(model), a) && Reachable(model)
    {
      ReachableStep(model, a);
      model := Step(model, a);
    }

    /** Claims the next cell of a lane unless another thread holds its flag or it is full. */
    method TryClaimPublication(producer: nat) returns (claim: PublicationClaim)
      requires Valid()
      modifies this`model, lanes
      ensures Valid()
      ensures producer >= lanes.Length ==> claim == NoClaim(Invalid) && model == old(model)
      ensures producer < lanes.Length && old(lanes[producer].publishing) ==>
        claim == NoClaim(Contended) && model == old(model)
      ensures producer < lanes.Length && !old(lanes[producer].publishing) ==>
        var l, claimed := old(lanes[producer]), ClaimAttempt(old(model), producer);
        if l.published - l.read == l.capacity
        then claim == NoClaim(Full) && model == Step(claimed, Move(producer, ClearFlag))
        else claim == Claim(producer, l.write, l.offset + l.write % l.capacity) && model == claimed
      ensures lanes[..] == if claim.Claim? then old(lanes[..])[producer := old(lanes[producer]).(publishing := true)]
                           else old(lanes[..])
    {
      if producer >= lanes.Length {
        return NoClaim(Invalid);
      }
      if lanes[producer].publishing {
        return NoClaim(Contended);
      }
      ClaimEffect(model, producer);
      hide Reachable, ClaimAttempt, Step;
      lanes[producer] := lanes[producer].(publishing := true);
      var lane := lanes[producer];
      model := ClaimAttempt(model, producer);
      if lane.write - lane.read >= lane.capacity {
        lanes[producer] := lane.(publishing := false);
        model := Step(model, Move(producer, ClearFlag));
        return NoClaim(Full);
      }
      return Claim(producer, lane.write, lane.offset + lane.write % lane.capacity);
    }

    /** The claim is the one its lane's holder owns. */
    ghost predicate Live(claim: PublicationClaim)
      reads this
    {
      && claim.Claim?
      && claim.producer < |model.lanes|
      && model.lanes[claim.producer].holder == Claimed(claim.writePosition)
      && model.lanes[claim.producer].capacity > 0
      && claim.cellIndex == CellOf(model.lanes[claim.producer], claim.writePosition)
    }

    /** Hands the record over under the next admission sequence, or changes nothing when the record
        does not belong to the claimed cell. */
    method Publish(claim: PublicationClaim, record: RecordHandle) returns (sequence: Option<nat>)
      requires Valid() && (claim.Claim? ==> Live(claim))
      modifies this`model, this`accepted, lanes, cells
      ensures Valid()
      ensures sequence.None? <==>
        !(claim.Claim? && IsValid(record) &&
          record.slotIndex == claim.cellIndex && record.producerIndex == claim.producer)
      ensures sequence.None? ==> model == old(model)
      ensures sequence.Some? ==>
        && sequence.value == old(model.accepted)
        && model == Published(old(model), claim.producer, record)
    {
      hide Reachable, Published, IsValid;
      if !claim.Claim? || !IsValid(record) || record.slotIndex != claim.cellIndex ||
         record.producerIndex != claim.producer {
        return None;
      }
      var p := claim.producer;
      PublishCall(model, p, record);
      sequence := Some(accepted);
      accepted := accepted + 1;
      cells[claim.cellIndex] := Envelope(record, sequence.value);
      StorePublication(p, claim.writePosition);
      model := Published(model, p, record);
    }

    /** The three stores that end a publication. */
    method StorePublication(p: nat, position: nat)
      requires p < lanes.Length
      modifies lanes
      ensures lanes[..] == old(lanes[..])[p := old(lanes[p]).(write := position + 1, published := position + 1,
                                                              publishing := false)]
    {
      lanes[p] := lanes[p].(write := position + 1);
      lanes[p] := lanes[p].(published := position + 1);
      lanes[p] := lanes[p].(publishing := false);
    }

    method AbandonClaim(claim: PublicationClaim)
      requires Valid() && Live(claim)
      modifies this`model, lanes
      ensures Valid() && model == Step(old(model), Move(claim.producer, Abandon))
      ensures lanes[..] == old(lanes[..])[claim.producer := old(lanes[claim.producer]).(publishing := false)]
    {
      lanes[claim.producer] := lanes[claim.producer].(publishing := false);
      Track(Move(claim.producer, Abandon));
    }

    /** Takes the record with the next sequence if some lane's head carries it. Without interference
        this finds it exactly when it is there. */
    method TryClaimConsumption() returns (claim: ConsumptionClaim)
      requires Valid() && (model.consumer.Resting? || model.consumer.Holding?)
      modifies this`model, this`claimActive
      ensures Valid()
      ensures old(claimActive) ==> claim == NoRecord(Pending) && model == old(model)
      ensures !old(claimActive) && HasHead(old(model), 0, next) ==>
        && claim.Taken? && claim.producer < |model.lanes|
        && HeadIs(model, claim.producer, next) && claim.envelope.sequence == next
        && model == old(model).(consumer := Holding(claim.producer, claim.readPosition, claim.envelope),
                                claimActive := true)
      ensures !old(claimActive) && !HasHead(old(model), 0, next) ==>
        model == old(model) && claim == NoRecord(if accepted == next then Empty else Pending)
    {
      hide Reachable, LaterBefore, HasHead, HeadIs;
      if claimActive {
        return NoRecord(Pending);
      }
      ConsumerIdle(model);
      var producer, later := ScanHeads();
      if producer < lanes.Length {
        HeadFound(model, producer);
        ScanTakes(model, producer);
        var lane := lanes[producer];
        var envelope := cells[lane.offset + lane.read % lane.capacity];
        claimActive := true;
        ghost var before := model;
        model := model.(consumer := Holding(producer, lane.read, envelope), claimActive := true);
        HeadKept(before, model, producer);
        return Taken(producer, lane.read, envelope);
      }
      NoHeadFound(model);
      ScanMisses(model);
      return NoRecord(if later || accepted != next then Pending else Empty);
    }

    /** Finds the first lane whose head carries the next sequence, or the number of lanes. */
    method ScanHeads() returns (producer: nat, later: bool)
      requires Valid()
      ensures producer <= lanes.Length
      ensures producer < lanes.Length ==> HeadIs(model, producer, next)
      ensures forall p :: 0 <= p < producer ==> !HeadIs(model, p, next)
      ensures later == LaterBefore(model, producer)
    {
      producer, later := 0, false;
      while producer < lanes.Length
        invariant producer <= lanes.Length
        invariant later == LaterBefore(model, producer)
        invariant forall p :: 0 <= p < producer ==> !HeadIs(model, p, next)
      {
        ReachablePositions(model, producer);
        var lane := lanes[producer];
        if lane.published != lane.read {
          var envelope := cells[lane.offset + lane.read % lane.capacity];
          if envelope.sequence == next {
            return;
          }
          later := true;
        }
        producer := producer + 1;
      }
    }

    /** Frees the taken cell and moves on to the next sequence. */
    method AcknowledgeClaim(claim: ConsumptionClaim)
      requires Valid() && claim.Taken?
      requires model.consumer == Holding(claim.producer, claim.readPosition, claim.envelope)
      modifies this, lanes
      ensures Valid() && lanes == old(lanes) && cells == old(cells)
      ensures model == Step(old(model), Acknowledge)
      ensures model.acknowledged == old(model.acknowledged) + [claim.envelope]
    {
      HoldingLane(model);
      hide Reachable;
      lanes[claim.producer] := lanes[claim.producer].(read := claim.readPosition + 1);
      next := next + 1;
      claimActive := false;
      Track(Acknowledge);
    }

    method CancelClaim(claim: ConsumptionClaim)
      requires Valid() && claim.Taken?
      requires model.consumer == Holding(claim.producer, claim.readPosition, claim.envelope)
      modifies this`model, this`claimActive
      ensures Valid() && model == old(model).(consumer := Resting, claimActive := false)
    {
      claimActive := false;
      Track(Consume(Cancel));
    }

    /** True exactly when nobody publishes on the lane and all its records are acknowledged. */
    method IsProducerDrained(producer: nat) returns (drained: bool)
      requires Valid()
      ensures drained <==> producer < |model.lanes| && Drained(model, producer)
    {
      if producer >= lanes.Length {
        return false;
      }
      var lane := lanes[producer];
      ReachablePositions(model, producer);
      return !lane.publishing && lane.published == lane.read;
    }
  }
}
