/** The bounded ring with many producers and one consumer
(benchmarks/prototypes/ingress/bounded_mpsc_ring.hpp).

A producer reserves a position by compare-exchange once the position's cell shows its turn, writes the cell
and passes the turn on; the consumer takes positions in order and passes each cell to the next lap. Every
atomic access is one step; the counters, which only their own thread touches, are not modelled except for
the number of actions a publication performs.

The ring is a bounded FIFO queue exactly when it has at least two cells: with one cell a published turn looks
like the turn of the next lap.
*/
module MpscRing {
  import opened RingArithmetic

  const MAXIMUM_PROBES: nat := 32
  const MAXIMUM_ACTIONS: nat := 2 * 32 + 6

  datatype Record = Record(slot: nat, serialized: nat, charge: nat)

  datatype Envelope = Envelope(record: Record, sequence: nat)

  datatype Cell = Cell(turn: nat, envelope: Envelope)

  datatype Status = Accepted | Full | Contended | Invalid

  const UINT64_MAX: nat := 0xFFFF_FFFF_FFFF_FFFF

  predicate IsValid(record: Record, capacity: nat)
    requires capacity > 0
  {
    && 0 < record.serialized <= record.charge
    && record.serialized <= UINT64_MAX / capacity && record.charge <= UINT64_MAX / capacity
  }

  /** A producer's progress. `full` is a history variable: the ring had no free cell when the turn was read. */
  datatype Producer =
    | Idle
    | Probing(record: Record, position: nat, probe: nat, actions: nat)
    | SawTurn(record: Record, position: nat, probe: nat, actions: nat, turn: nat, full: bool)
    | Reserved(record: Record, position: nat, actions: nat)
    | Written(record: Record, position: nat, actions: nat)
    | Returned(status: Status, position: nat, actions: nat, full: bool)

  /** The consumer's progress. `empty` is a history variable: nothing was reserved when the count was read. */
  datatype Consumer =
    | Resting
    | Missed(position: nat)
    | Taking(position: nat)
    | Took(position: nat, envelope: Envelope)
    | Freed(position: nat)
    | Answered(pending: bool, empty: bool)

  /** `reserved` and `consumed` are history variables: the record each position was reserved for, and the
      envelopes taken, in order. */
  datatype State = State(
    cells: seq<Cell>, enqueue: nat, dequeue: nat, producers: seq<Producer>, consumer: Consumer,
    reserved: seq<Record>, consumed: seq<Envelope>)

  datatype ProducerMove = Begin(record: Record) | LoadTurn | Decide | Write | StoreTurn | Return

  datatype ConsumerMove = ReadTurn | ReadCount | ReadCell | FreeCell | Advance | Rest

  datatype Action = Produce(i: nat, move: ProducerMove) | Consume(take: ConsumerMove)

  function Index(s: State, position: nat): (k: nat)
    requires |s.cells| > 0
    ensures k < |s.cells|
  {
    position % |s.cells|
  }

  /** Positions reserved and not yet freed. */
  function Occupied(s: State): int { s.enqueue - |s.consumed| }

  /** The producer's next state, for the moves that touch nothing else. */
  function Decided(s: State, p: Producer): Producer
    requires p.SawTurn?
  {
    if p.turn == p.position then
      // the compare-exchange
      if s.enqueue == p.position then Reserved(p.record, p.position, p.actions + 1)
      else Probing(p.record, s.enqueue, p.probe + 1, p.actions + 1)
    else if p.turn < p.position then Returned(Full, p.position, p.actions + 2, p.full)
    else Probing(p.record, s.enqueue, p.probe + 1, p.actions + 1)
  }

  predicate Enabled(s: State, a: Action) {
    && |s.cells| > 0
    && match a
       case Produce(i, m) =>
         && i < |s.producers|
         && (match m
             case Begin(_) => s.producers[i].Idle?
             case LoadTurn => s.producers[i].Probing?
             case Decide => s.producers[i].SawTurn?
             case Write => s.producers[i].Reserved?
             case StoreTurn => s.producers[i].Written?
             case Return => s.producers[i].Returned?)
       case Consume(m) =>
         match m
         case ReadTurn => s.consumer.Resting?
         case ReadCount => s.consumer.Missed?
         case ReadCell => s.consumer.Taking?
         case FreeCell => s.consumer.Took?
         case Advance => s.consumer.Freed?
         case Rest => s.consumer.Answered?
  }

  function NextProducer(s: State, i: nat, m: ProducerMove): Producer
    requires Enabled(s, Produce(i, m))
  {
    var p := s.producers[i];
    match m
    case Begin(record) =>
      if IsValid(record, |s.cells|) then Probing(record, s.enqueue, 0, 2) else Returned(Invalid, 0, 3, false)
    case LoadTurn =>
      if p.probe == MAXIMUM_PROBES then Returned(Contended, p.position, p.actions + 2, false)
      else SawTurn(p.record, p.position, p.probe, p.actions + 1, s.cells[Index(s, p.position)].turn,
                   Occupied(s) >= |s.cells|)
    case Decide => Decided(s, p)
    case Write => Written(p.record, p.position, p.actions)
    case StoreTurn => Returned(Accepted, p.position, p.actions + 4, false)
    case Return => Idle
  }

  /** The producer wins the compare-exchange. */
  predicate Wins(s: State, i: nat, m: ProducerMove)
    requires Enabled(s, Produce(i, m))
  {
    m.Decide? && s.producers[i].turn == s.producers[i].position == s.enqueue
  }

  function ProducerCell(s: State, i: nat, m: ProducerMove): seq<Cell>
    requires Enabled(s, Produce(i, m))
  {
    var p := s.producers[i];
    match m
    case Write =>
      s.cells[Index(s, p.position) := s.cells[Index(s, p.position)].(envelope := Envelope(p.record, p.position))]
    case StoreTurn => s.cells[Index(s, p.position) := s.cells[Index(s, p.position)].(turn := p.position + 1)]
    case _ => s.cells
  }

  function NextConsumer(s: State, m: ConsumerMove): Consumer
    requires Enabled(s, Consume(m))
  {
    var c := s.consumer;
    match m
    case ReadTurn =>
      if s.cells[Index(s, s.dequeue)].turn != s.dequeue + 1 then Missed(s.dequeue) else Taking(s.dequeue)
    case ReadCount => Answered(s.enqueue > c.position, Occupied(s) == 0)
    case ReadCell => Took(c.position, s.cells[Index(s, c.position)].envelope)
    case FreeCell => Freed(c.position)
    case Advance => Resting
    case Rest => Resting
  }

  function Step(s: State, a: Action): State {
    if !Enabled(s, a) then s else
    match a
    case Produce(i, m) =>
      s.(producers := s.producers[i := NextProducer(s, i, m)], cells := ProducerCell(s, i, m),
         enqueue := if Wins(s, i, m) then s.enqueue + 1 else s.enqueue,
         reserved := if Wins(s, i, m) then s.reserved + [s.producers[i].record] else s.reserved)
    case Consume(m) =>
      var c := s.consumer;
      s.(consumer := NextConsumer(s, m),
         cells := if m.FreeCell? then
                    s.cells[Index(s, c.position) := s.cells[Index(s, c.position)].(turn := c.position + |s.cells|)]
                  else s.cells,
         consumed := if m.FreeCell? then s.consumed + [c.envelope] else s.consumed,
         dequeue := if m.Advance? then c.position + 1 else s.dequeue)
  }

  function Run(s: State, schedule: seq<Action>): State {
    if schedule == [] then s
    else Step(Run(s, schedule[..|schedule| - 1]), schedule[|schedule| - 1])
  }

  /* --- The invariant ------------------------------------------------------------------------------------- */

  /** Position `p` of the current lap: free, reserved, or published with its record. */
  predicate CellOk(s: State, p: nat)
    requires |s.cells| > 0
  {
    var cell := s.cells[Index(s, p)];
    || cell.turn == p
    || (cell.turn == p + 1 && p < s.enqueue && p < |s.reserved| && cell.envelope == Envelope(s.reserved[p], p))
  }

  predicate CellsOk(s: State) {
    && |s.cells| >= 2
    && forall p :: |s.consumed| <= p < |s.consumed| + |s.cells| ==> CellOk(s, p)
  }

  predicate CountsOk(s: State) {
    && |s.reserved| == s.enqueue && |s.consumed| <= s.enqueue <= |s.consumed| + |s.cells|
    && (forall k :: 0 <= k < |s.consumed| ==> s.consumed[k] == Envelope(s.reserved[k], k))
  }

  predicate ProducerOk(s: State, p: Producer)
    requires |s.cells| > 0
  {
    match p
    case Idle => true
    case Probing(_, position, probe, actions) =>
      position <= s.enqueue && probe <= MAXIMUM_PROBES && actions <= 2 + 2 * probe
    case SawTurn(_, position, probe, actions, turn, full) =>
      && position <= s.enqueue && probe < MAXIMUM_PROBES && actions <= 3 + 2 * probe
      && (turn == position ==> position < |s.consumed| + |s.cells|)
      && (turn < position ==> full)
    case Reserved(record, position, actions) => actions <= 4 + 2 * (MAXIMUM_PROBES - 1) && Owns(s, record, position)
    case Written(record, position, actions) =>
      && actions <= 4 + 2 * (MAXIMUM_PROBES - 1) && Owns(s, record, position)
      && s.cells[Index(s, position)].envelope == Envelope(record, position)
    case Returned(status, position, actions, full) => actions <= MAXIMUM_ACTIONS && (status.Full? ==> full)
  }

  /** The position is reserved for the record and its turn has not been passed on. */
  predicate Owns(s: State, record: Record, position: nat)
    requires |s.cells| > 0
  {
    && |s.consumed| <= position < s.enqueue && position < |s.reserved| && s.reserved[position] == record
    && s.cells[Index(s, position)].turn == position
  }

  predicate Holding(p: Producer) { p.Reserved? || p.Written? }

  predicate ProducersOk(s: State) {
    && |s.cells| > 0
    && (forall i :: 0 <= i < |s.producers| ==> ProducerOk(s, s.producers[i]))
    && (forall i, j :: 0 <= i < j < |s.producers| && Holding(s.producers[i]) && Holding(s.producers[j]) ==>
          s.producers[i].position != s.producers[j].position)
  }

  predicate ConsumerOk(s: State)
    requires |s.cells| > 0
  {
    match s.consumer
    case Resting => s.dequeue == |s.consumed|
    case Missed(position) => s.dequeue == |s.consumed| == position
    case Taking(position) =>
      && s.dequeue == |s.consumed| == position && position < s.enqueue
      && s.cells[Index(s, position)].turn == position + 1
    case Took(position, envelope) =>
      && s.dequeue == |s.consumed| == position && position < s.enqueue && position < |s.reserved|
      && s.cells[Index(s, position)].turn == position + 1 && envelope == Envelope(s.reserved[position], position)
    case Freed(position) => s.dequeue == position && |s.consumed| == position + 1
    case Answered(pending, empty) => s.dequeue == |s.consumed| && (!pending ==> empty)
  }

  predicate Inv(s: State) {
    CellsOk(s) && CountsOk(s) && ProducersOk(s) && ConsumerOk(s)
  }

  /* --- Every step keeps the invariant -------------------------------------------------------------------- */

  /** The cell a stale or current position points at, seen from the current lap. */
  lemma TurnSeen(s: State, position: nat)
    requires Inv(s) && position <= s.enqueue
    ensures var turn := s.cells[Index(s, position)].turn;
            && (turn == position ==> position < |s.consumed| + |s.cells|)
            && (turn < position ==> Occupied(s) >= |s.cells|)
  {
    hide ProducersOk, ConsumerOk;
    var low := |s.consumed|;
    if position < low + |s.cells| {
      var p := InLap(|s.cells|, low, position);
      assert CellOk(s, p);
    } else {
      NextLap(|s.cells|, low);
      assert CellOk(s, low);
    }
  }

  /** Positions of one lap on the same cell are the same. */
  lemma SamePosition(s: State, p: nat, q: nat)
    requires |s.cells| > 0 && |s.consumed| <= p < |s.consumed| + |s.cells| &&
             |s.consumed| <= q < |s.consumed| + |s.cells|
    ensures Index(s, p) == Index(s, q) ==> p == q
  {
    if p < q {
      DistinctCells(|s.cells|, p, q);
    } else if q < p {
      DistinctCells(|s.cells|, q, p);
    }
  }

  /** A producer that only moves on by itself. */
  lemma QuietMove(s: State, i: nat, m: ProducerMove)
    requires Inv(s) && Enabled(s, Produce(i, m))
    requires m.Begin? || m.LoadTurn? || m.Return? || (m.Decide? && !Wins(s, i, m))
    ensures Inv(Step(s, Produce(i, m)))
  {
    hide CellOk, Owns;
    var s' := Step(s, Produce(i, m));
    assert ProducerOk(s, s.producers[i]);
    if m.LoadTurn? {
      TurnSeen(s, s.producers[i].position);
    }
    SameRing(s, s');
    forall j | 0 <= j < |s'.producers|
      ensures ProducerOk(s', s'.producers[j])
    {
      if j != i {
        assert ProducerOk(s, s.producers[j]);
        SameProducer(s, s', s.producers[j]);
      }
    }
  }

  lemma SameRing(s: State, s': State)
    requires CellsOk(s) && CountsOk(s) && ConsumerOk(s)
    requires s'.cells == s.cells && s'.enqueue == s.enqueue && s'.reserved == s.reserved && s'.consumed == s.consumed
    requires s'.consumer == s.consumer && s'.dequeue == s.dequeue
    ensures CellsOk(s') && CountsOk(s') && ConsumerOk(s')
  {
    forall p | |s'.consumed| <= p < |s'.consumed| + |s'.cells|
      ensures CellOk(s', p)
    {
      assert CellOk(s, p);
    }
  }

  lemma SameProducer(s: State, s': State, p: Producer)
    requires |s.cells| > 0 && ProducerOk(s, p)
    requires s'.cells == s.cells && s'.enqueue == s.enqueue && s'.reserved == s.reserved && s'.consumed == s.consumed
    ensures ProducerOk(s', p)
  {}

  /** The compare-exchange succeeds: the position is reserved, and the ring does not overflow. */
  lemma WinMove(s: State, i: nat)
    requires Inv(s) && Enabled(s, Produce(i, Decide)) && Wins(s, i, Decide)
    ensures Inv(Step(s, Produce(i, Decide)))
  {
    var s' := Step(s, Produce(i, Decide));
    var e := s.enqueue;
    assert ProducerOk(s, s.producers[i]);
    assert CellOk(s, e);
    forall p | |s'.consumed| <= p < |s'.consumed| + |s'.cells|
      ensures CellOk(s', p)
    {
      assert CellOk(s, p);
    }
    forall j | 0 <= j < |s'.producers|
      ensures ProducerOk(s', s'.producers[j])
    {
      assert ProducerOk(s, s.producers[j]);
    }
  }

  /** A holder touches only its own cell. */
  lemma OwnCell(s: State, i: nat, m: ProducerMove)
    requires Inv(s) && Enabled(s, Produce(i, m)) && (m.Write? || m.StoreTurn?)
    ensures var p := s.producers[i].position;
            && Owns(s, s.producers[i].record, p) && p < |s.consumed| + |s.cells|
            && forall q :: |s.consumed| <= q < |s.consumed| + |s.cells| && q != p ==>
                 Step(s, Produce(i, m)).cells[Index(s, q)] == s.cells[Index(s, q)]
  {
    hide CellOk;
    assert ProducerOk(s, s.producers[i]);
    var p := s.producers[i].position;
    forall q | |s.consumed| <= q < |s.consumed| + |s.cells| && q != p
      ensures Step(s, Produce(i, m)).cells[Index(s, q)] == s.cells[Index(s, q)]
    {
      SamePosition(s, p, q);
    }
  }

  lemma HolderMove(s: State, i: nat, m: ProducerMove)
    requires Inv(s) && Enabled(s, Produce(i, m)) && (m.Write? || m.StoreTurn?)
    ensures Inv(Step(s, Produce(i, m)))
  {
    OwnCell(s, i, m);
    var s', p := Step(s, Produce(i, m)), s.producers[i].position;
    assert ProducerOk(s, s.producers[i]);
    forall q | |s'.consumed| <= q < |s'.consumed| + |s'.cells|
      ensures CellOk(s', q)
    {
      assert CellOk(s, q);
    }
    forall j | 0 <= j < |s'.producers|
      ensures ProducerOk(s', s'.producers[j])
    {
      if j != i {
        assert ProducerOk(s, s.producers[j]);
        if Holding(s.producers[j]) {
          assert s.producers[j].position != p;
          assert Index(s', s.producers[j].position) == Index(s, s.producers[j].position);
        }
      }
    }
  }

  /** The consumer passes the cell of its position to the next lap. */
  lemma FreeMove(s: State)
    requires Inv(s) && Enabled(s, Consume(FreeCell))
    ensures Inv(Step(s, Consume(FreeCell)))
  {
    var s', p := Step(s, Consume(FreeCell)), s.consumer.position;
    NextLap(|s.cells|, p);
    forall q | |s'.consumed| <= q < |s'.consumed| + |s'.cells|
      ensures CellOk(s', q)
    {
      if q < |s.consumed| + |s.cells| {
        assert CellOk(s, q);
        SamePosition(s, p, q);
      }
    }
    forall j | 0 <= j < |s'.producers|
      ensures ProducerOk(s', s'.producers[j])
    {
      assert ProducerOk(s, s.producers[j]);
      if Holding(s.producers[j]) {
        SamePosition(s, p, s.producers[j].position);
      }
    }
  }

  lemma ConsumerMoves(s: State, m: ConsumerMove)
    requires Inv(s) && Enabled(s, Consume(m)) && !m.FreeCell?
    ensures Inv(Step(s, Consume(m)))
  {
    var s' := Step(s, Consume(m));
    assert CellOk(s, |s.consumed|);
    forall q | |s'.consumed| <= q < |s'.consumed| + |s'.cells|
      ensures CellOk(s', q)
    {
      assert CellOk(s, q);
    }
    forall j | 0 <= j < |s'.producers|
      ensures ProducerOk(s', s'.producers[j])
    {
      assert ProducerOk(s, s.producers[j]);
      SameProducer(s, s', s.producers[j]);
    }
  }

  lemma StepInv(s: State, a: Action)
    requires Inv(s)
    ensures Inv(Step(s, a))
  {
    hide Inv, CellsOk, CountsOk, ProducersOk, ConsumerOk;
    if Enabled(s, a) {
      match a
      case Produce(i, m) =>
        if m.Write? || m.StoreTurn? {
          HolderMove(s, i, m);
        } else if m.Decide? && Wins(s, i, m) {
          WinMove(s, i);
        } else {
          QuietMove(s, i, m);
        }
      case Consume(m) =>
        if m.FreeCell? {
          FreeMove(s);
        } else {
          ConsumerMoves(s, m);
        }
    }
  }

  /* --- What holds in every run ------------------------------------------------------------------------------ */

  /** A ring as constructed: every cell shows its first turn. */
  predicate Start(s: State) {
    && |s.cells| > 0 && (forall k :: 0 <= k < |s.cells| ==> s.cells[k].turn == k)
    && s.enqueue == s.dequeue == 0 && s.consumer == Resting && s.reserved == [] && s.consumed == []
    && (forall i :: 0 <= i < |s.producers| ==> s.producers[i] == Idle)
  }

  lemma StartInv(s: State)
    requires Start(s) && |s.cells| >= 2
    ensures Inv(s)
  {
    forall p | 0 <= p < |s.cells|
      ensures CellOk(s, p)
    {
      assert Index(s, p) == p;
    }
  }

  lemma {:induction false} RunInv(s: State, schedule: seq<Action>)
    requires Start(s) && |s.cells| >= 2
    ensures Inv(Run(s, schedule)) && |Run(s, schedule).cells| == |s.cells|
  {
    hide Inv, Start;
    if schedule == [] {
      StartInv(s);
    } else {
      var before := Run(s, schedule[..|schedule| - 1]);
      RunInv(s, schedule[..|schedule| - 1]);
      StepInv(before, schedule[|schedule| - 1]);
      StepCells(before, schedule[|schedule| - 1]);
    }
  }

  lemma StepCells(s: State, a: Action)
    ensures |Step(s, a).cells| == |s.cells|
  {}

  /** The queue the ring stands for: what is reserved and not yet taken. */
  function Queue(s: State): seq<Record>
    requires |s.consumed| <= |s.reserved|
  {
    s.reserved[|s.consumed|..]
  }

  /** One step of a bounded FIFO queue, or none. */
  predicate QueueStep(s: State, s': State)
    requires |s.consumed| <= |s.reserved| && |s'.consumed| <= |s'.reserved|
  {
    || (Queue(s') == Queue(s) && s'.consumed == s.consumed)
    || (|Queue(s)| < |s.cells| && |Queue(s')| == |Queue(s)| + 1 && Queue(s) <= Queue(s') && s'.consumed == s.consumed)
    || (Queue(s) != [] && Queue(s') == Queue(s)[1..] &&
        s'.consumed == s.consumed + [Envelope(Queue(s)[0], |s.consumed|)])
  }

  lemma CountsBound(s: State)
    requires Inv(s)
    ensures |s.consumed| <= |s.reserved| == s.enqueue
  {
    hide CellsOk, ProducersOk, ConsumerOk;
  }

  /** Every step of the ring is a step of the queue: an enqueue at the compare-exchange, a dequeue at the store
      that frees the cell, or nothing. */
  lemma RingRefinesQueue(s: State, schedule: seq<Action>, a: Action)
    requires Start(s) && |s.cells| >= 2
    ensures var t := Run(s, schedule); var u := Step(t, a);
            |t.consumed| <= |t.reserved| && |u.consumed| <= |u.reserved| && QueueStep(t, u)
  {
    RunInv(s, schedule);
    var t := Run(s, schedule);
    StepInv(t, a);
    StepRefines(t, a);
  }

  lemma StepRefines(s: State, a: Action)
    requires Inv(s) && Inv(Step(s, a))
    ensures |s.consumed| <= |s.reserved| && |Step(s, a).consumed| <= |Step(s, a).reserved| && QueueStep(s, Step(s, a))
  {
    CountsBound(s);
    CountsBound(Step(s, a));
    var s' := Step(s, a);
    if Enabled(s, a) && a.Produce? && Wins(s, a.i, a.move) {
      assert Queue(s')[..|Queue(s)|] == Queue(s);
    } else if Enabled(s, a) && a.Consume? && a.take.FreeCell? {
      assert Queue(s') == Queue(s)[1..];
    }
  }

  /** Positions are consumed as 0, 1, 2, ..., each with the record its producer reserved it for, and never are
      more positions outstanding than the ring has cells. */
  lemma ConsumedInOrder(s: State, schedule: seq<Action>)
    requires Start(s) && |s.cells| >= 2
    ensures var t := Run(s, schedule);
            && |t.consumed| <= |t.reserved| == t.enqueue && Occupied(t) <= |s.cells|
            && forall k :: 0 <= k < |t.consumed| ==> t.consumed[k] == Envelope(t.reserved[k], k)
  {
    RunInv(s, schedule);
    hide CellsOk, ProducersOk, ConsumerOk;
  }

  /** A call reports a full ring only if it was full when the call read the turn, and no call performs more than
      the promised number of actions. */
  lemma ReturnedOk(s: State, schedule: seq<Action>, i: nat)
    requires Start(s) && |s.cells| >= 2 && i < |Run(s, schedule).producers| && Run(s, schedule).producers[i].Returned?
    ensures var p := Run(s, schedule).producers[i];
            p.actions <= MAXIMUM_ACTIONS && (p.status.Full? ==> p.full)
  {
    RunInv(s, schedule);
    assert ProducerOk(Run(s, schedule), Run(s, schedule).producers[i]);
  }

  /** The consumer reports an empty ring only if nothing was reserved when it read the count. */
  lemma EmptyMeansEmpty(s: State, schedule: seq<Action>)
    requires Start(s) && |s.cells| >= 2 && Run(s, schedule).consumer.Answered?
    ensures !Run(s, schedule).consumer.pending ==> Run(s, schedule).consumer.empty
  {
    RunInv(s, schedule);
    hide CellsOk, ProducersOk, CountsOk;
  }

  /** A producer has reserved the position and not yet passed its turn on. */
  ghost predicate HeldAt(s: State, p: nat) {
    exists i :: 0 <= i < |s.producers| && HoldsAt(s.producers[i], p)
  }

  predicate HoldsAt(producer: Producer, p: nat) { Holding(producer) && producer.position == p }

  /** Position `p` shows its own turn only while its producer is at work. */
  ghost predicate HeldOk(s: State, p: nat)
    requires |s.cells| > 0
  {
    s.cells[Index(s, p)].turn == p ==> HeldAt(s, p)
  }

  ghost predicate AllHeld(s: State) {
    && |s.cells| > 0
    && forall p :: |s.consumed| <= p < s.enqueue ==> HeldOk(s, p)
  }

  /** A producer keeps its position in any step but the one that passes the turn on. */
  lemma HeldKept(s: State, i: nat, m: ProducerMove, p: nat)
    requires Enabled(s, Produce(i, m)) && HeldAt(s, p) && !(m.StoreTurn? && s.producers[i].position == p)
    ensures HeldAt(Step(s, Produce(i, m)), p)
  {
    var j :| 0 <= j < |s.producers| && HoldsAt(s.producers[j], p);
    assert HoldsAt(Step(s, Produce(i, m)).producers[j], p);
  }

  lemma HeldProduce(s: State, i: nat, m: ProducerMove)
    requires Inv(s) && AllHeld(s) && Enabled(s, Produce(i, m))
    ensures AllHeld(Step(s, Produce(i, m)))
  {
    hide Inv, HeldAt;
    var s' := Step(s, Produce(i, m));
    CountsBound(s);
    if m.Write? || m.StoreTurn? {
      OwnCell(s, i, m);
    }
    forall p | |s'.consumed| <= p < s'.enqueue
      ensures HeldOk(s', p)
    {
      if p < s.enqueue {
        assert HeldOk(s, p);
        HeldUnlessStored(s, i, m, p);
      } else {
        assert HoldsAt(s'.producers[i], p);
        HeldBy(s', i, p);
      }
    }
  }

  lemma HeldBy(s: State, i: nat, p: nat)
    requires i < |s.producers| && HoldsAt(s.producers[i], p)
    ensures HeldAt(s, p)
  {}

  lemma HeldUnlessStored(s: State, i: nat, m: ProducerMove, p: nat)
    requires Inv(s) && Enabled(s, Produce(i, m)) && |s.consumed| <= p < s.enqueue && HeldOk(s, p)
    ensures HeldOk(Step(s, Produce(i, m)), p)
  {
    hide Inv, HeldAt, CellsOk, ProducersOk, ConsumerOk;
    CountsWithin(s);
    if m.Write? || m.StoreTurn? {
      OwnCell(s, i, m);
    }
    if s.cells[Index(s, p)].turn == p && !(m.StoreTurn? && s.producers[i].position == p) {
      HeldKept(s, i, m, p);
    }
  }

  lemma CountsWithin(s: State)
    requires Inv(s)
    ensures s.enqueue <= |s.consumed| + |s.cells|
  {
    hide CellsOk, ProducersOk, ConsumerOk;
  }

  lemma HeldConsume(s: State, m: ConsumerMove)
    requires Inv(s) && AllHeld(s) && Enabled(s, Consume(m))
    ensures AllHeld(Step(s, Consume(m)))
  {
    hide CellsOk, ProducersOk, HeldAt;
    var s' := Step(s, Consume(m));
    forall p | |s'.consumed| <= p < s'.enqueue
      ensures HeldOk(s', p)
    {
      assert HeldOk(s, p);
      HeldSame(s, s', p);
      if m.FreeCell? {
        SamePosition(s, s.consumer.position, p);
      }
    }
  }

  lemma HeldSame(s: State, s': State, p: nat)
    requires s'.producers == s.producers
    ensures HeldAt(s', p) <==> HeldAt(s, p)
  {}

  lemma {:induction false} RunHeld(s: State, schedule: seq<Action>)
    requires Start(s) && |s.cells| >= 2
    ensures AllHeld(Run(s, schedule))
  {
    hide Inv, AllHeld;
    if schedule == [] {
      assert AllHeld(s) by { StartHeld(s); }
    } else {
      var before, a := Run(s, schedule[..|schedule| - 1]), schedule[|schedule| - 1];
      RunInv(s, schedule[..|schedule| - 1]);
      RunHeld(s, schedule[..|schedule| - 1]);
      if Enabled(before, a) {
        match a
        case Produce(i, m) => HeldProduce(before, i, m);
        case Consume(m) => HeldConsume(before, m);
      }
    }
  }

  lemma StartHeld(s: State)
    requires Start(s)
    ensures AllHeld(s)
  {}

  /** No reserved record is lost: until it is consumed, its producer is still at work on it or its cell shows it
      published. */
  lemma ReservedIsHeldOrPublished(s: State, schedule: seq<Action>, p: nat)
    requires Start(s) && |s.cells| >= 2
    requires |Run(s, schedule).consumed| <= p < Run(s, schedule).enqueue
    ensures var t := Run(s, schedule);
            && |t.cells| > 0 && p < |t.reserved|
            && (HeldAt(t, p) || t.cells[Index(t, p)] == Cell(p + 1, Envelope(t.reserved[p], p)))
  {
    RunInv(s, schedule);
    RunHeld(s, schedule);
    var t := Run(s, schedule);
    CountsWithin(t);
    assert CellOk(t, p);
    assert HeldOk(t, p);
    hide ProducersOk, ConsumerOk;
  }

  /* --- One cell is not enough ---------------------------------------------------------------------------------- */

  const PAYLOAD: Record := Record(0, 1, 1)

  /** A ring of one cell and two producers, in the given condition. */
  function OneCell(cell: Cell, enqueue: nat, first: Producer, second: Producer, reserved: seq<Record>): State {
    State([cell], enqueue, 0, [first, second], Resting, reserved, [])
  }

  const EMPTY_CELL: Cell := Cell(0, Envelope(Record(0, 0, 0), 0))
  const FULL_CELL: Cell := Cell(1, Envelope(PAYLOAD, 0))

  ghost predicate Reaches(s: State, t: State) {
    exists schedule: seq<Action> :: Run(s, schedule) == t
  }

  lemma ReachesStep(s: State, t: State, a: Action)
    requires Reaches(s, t)
    ensures Reaches(s, Step(t, a))
  {
    hide Step;
    var schedule: seq<Action> :| Run(s, schedule) == t;
    RunAppend(s, schedule, a);
  }

  /** The first producer publishes into the only cell. */
  lemma FirstPublication(s: State)
    requires s == OneCell(EMPTY_CELL, 0, Idle, Idle, [])
    ensures Reaches(s, OneCell(FULL_CELL, 1, Returned(Accepted, 0, 8, false), Idle, [PAYLOAD]))
  {
    hide Reaches, Run;
    var s1 := OneCell(EMPTY_CELL, 0, Probing(PAYLOAD, 0, 0, 2), Idle, []);
    var s2 := OneCell(EMPTY_CELL, 0, SawTurn(PAYLOAD, 0, 0, 3, 0, false), Idle, []);
    var s3 := OneCell(EMPTY_CELL, 1, Reserved(PAYLOAD, 0, 4), Idle, [PAYLOAD]);
    var s4 := OneCell(Cell(0, Envelope(PAYLOAD, 0)), 1, Written(PAYLOAD, 0, 4), Idle, [PAYLOAD]);
    ReachesItself(s);
    assert Step(s, Produce(0, Begin(PAYLOAD))) == s1;
    ReachesStep(s, s, Produce(0, Begin(PAYLOAD)));
    assert Step(s1, Produce(0, LoadTurn)) == s2;
    ReachesStep(s, s1, Produce(0, LoadTurn));
    assert Step(s2, Produce(0, Decide)) == s3;
    ReachesStep(s, s2, Produce(0, Decide));
    assert Step(s3, Produce(0, Write)) == s4;
    ReachesStep(s, s3, Produce(0, Write));
    assert Step(s4, Produce(0, StoreTurn)) == OneCell(FULL_CELL, 1, Returned(Accepted, 0, 8, false), Idle, [PAYLOAD]);
    ReachesStep(s, s4, Produce(0, StoreTurn));
  }

  lemma ReachesItself(s: State)
    ensures Reaches(s, s)
  {
    assert Run(s, []) == s;
  }

  const OTHER: Record := Record(1, 1, 1)
  const OVERWRITTEN_CELL: Cell := Cell(2, Envelope(OTHER, 1))
  const FIRST_DONE: Producer := Returned(Accepted, 0, 8, false)

  /** The second producer finds the published turn and takes it for its own. */
  lemma SecondPublication(s: State)
    requires Reaches(s, OneCell(FULL_CELL, 1, FIRST_DONE, Idle, [PAYLOAD]))
    ensures Reaches(s, OneCell(OVERWRITTEN_CELL, 2, FIRST_DONE, Returned(Accepted, 1, 8, false), [PAYLOAD, OTHER]))
  {
    hide Run, Reaches;
    var t0 := OneCell(FULL_CELL, 1, FIRST_DONE, Idle, [PAYLOAD]);
    var t1 := OneCell(FULL_CELL, 1, FIRST_DONE, Probing(OTHER, 1, 0, 2), [PAYLOAD]);
    var t2 := OneCell(FULL_CELL, 1, FIRST_DONE, SawTurn(OTHER, 1, 0, 3, 1, true), [PAYLOAD]);
    var t3 := OneCell(FULL_CELL, 2, FIRST_DONE, Reserved(OTHER, 1, 4), [PAYLOAD, OTHER]);
    var t4 := OneCell(Cell(1, Envelope(OTHER, 1)), 2, FIRST_DONE, Written(OTHER, 1, 4), [PAYLOAD, OTHER]);
    assert Step(t0, Produce(1, Begin(OTHER))) == t1;
    ReachesStep(s, t0, Produce(1, Begin(OTHER)));
    assert Step(t1, Produce(1, LoadTurn)) == t2;
    ReachesStep(s, t1, Produce(1, LoadTurn));
    assert Step(t2, Produce(1, Decide)) == t3;
    ReachesStep(s, t2, Produce(1, Decide));
    assert Step(t3, Produce(1, Write)) == t4;
    ReachesStep(s, t3, Produce(1, Write));
    assert Step(t4, Produce(1, StoreTurn)) ==
           OneCell(OVERWRITTEN_CELL, 2, FIRST_DONE, Returned(Accepted, 1, 8, false), [PAYLOAD, OTHER]);
    ReachesStep(s, t4, Produce(1, StoreTurn));
  }

  /** The cell's turn has passed the consumer, who waits for a turn that does not come back. */
  predicate Stuck(s: State) {
    && |s.cells| == 1 && s.cells[0].turn >= 2 && s.dequeue == 0 && s.consumed == []
    && (s.consumer.Resting? || (s.consumer.Missed? && s.consumer.position == 0) || s.consumer.Answered?)
    && (forall i :: 0 <= i < |s.producers| ==>
          && (s.producers[i].SawTurn? ==> s.producers[i].turn >= 2)
          && (Holding(s.producers[i]) ==> s.producers[i].position >= 2))
  }

  lemma StuckStep(s: State, a: Action)
    requires Stuck(s)
    ensures Stuck(Step(s, a))
  {}

  lemma {:induction false} StuckRun(s: State, schedule: seq<Action>)
    requires Stuck(s)
    ensures Stuck(Run(s, schedule))
  {
    hide Stuck, Step;
    if schedule != [] {
      StuckRun(s, schedule[..|schedule| - 1]);
      StuckStep(Run(s, schedule[..|schedule| - 1]), schedule[|schedule| - 1]);
    }
  }

  /** Two accepted records share the only cell: it holds the second one's, and no continuation ever lets the consumer
      take any record, so the first is lost. */
  lemma OneCellOverflows(s: State)
    requires s == OneCell(EMPTY_CELL, 0, Idle, Idle, [])
    ensures Start(s)
    ensures exists schedule: seq<Action> :: Occupied(Run(s, schedule)) == 2 && LosesFirst(Run(s, schedule))
  {
    hide Run;
    FirstPublication(s);
    SecondPublication(s);
    var t := OneCell(OVERWRITTEN_CELL, 2, FIRST_DONE, Returned(Accepted, 1, 8, false), [PAYLOAD, OTHER]);
    var schedule: seq<Action> :| Run(s, schedule) == t;
    forall more: seq<Action>
      ensures Run(t, more).consumed == []
    {
      StuckRun(t, more);
    }
    assert Occupied(Run(s, schedule)) == 2 && LosesFirst(Run(s, schedule));
  }

  /** Both producers were told their record was accepted, the only cell carries the second's, and nothing is ever
      consumed from here on. */
  ghost predicate LosesFirst(s: State) {
    && |s.cells| == 1 && s.reserved == [PAYLOAD, OTHER] && s.cells[0].envelope == Envelope(OTHER, 1)
    && |s.producers| == 2
    && (forall i :: 0 <= i < 2 ==> s.producers[i].Returned? && s.producers[i].status.Accepted?)
    && (forall more: seq<Action> :: Run(s, more).consumed == [])
  }

  lemma RunAppend(s: State, schedule: seq<Action>, a: Action)
    ensures Run(s, schedule + [a]) == Step(Run(s, schedule), a)
  {
    hide Step;
    assert (schedule + [a])[..|schedule|] == schedule;
  }

  /** The ring never holds more positions than it has cells in any run, exactly when it has at least two. */
  lemma BoundedIffTwoCells(capacity: nat)
    requires capacity > 0
    ensures capacity >= 2 <==>
            forall s: State, schedule: seq<Action> ::
              Start(s) && |s.cells| == capacity ==> Occupied(Run(s, schedule)) <= capacity
  {
    hide Run, Step;
    if capacity >= 2 {
      forall s: State, schedule: seq<Action> | Start(s) && |s.cells| == capacity
        ensures Occupied(Run(s, schedule)) <= capacity
      {
        ConsumedInOrder(s, schedule);
      }
    } else {
      OneCellOverflows(OneCell(EMPTY_CELL, 0, Idle, Idle, []));
    }
  }

  /* --- The object ------------------------------------------------------------------------------------------------ */

  ghost predicate Reachable(s: State) {
    exists origin: State, schedule: seq<Action> :: Start(origin) && |origin.cells| >= 2 && Run(origin, schedule) == s
  }

  lemma ReachableInv(s: State)
    requires Reachable(s)
    ensures Inv(s)
  {
    hide Inv, Start;
    var origin: State, schedule: seq<Action> :| Start(origin) && |origin.cells| >= 2 && Run(origin, schedule) == s;
    RunInv(origin, schedule);
  }

  lemma ReachableStep(s: State, a: Action)
    requires Reachable(s)
    ensures Reachable(Step(s, a))
  {
    hide Step, Start;
    var origin: State, schedule: seq<Action> :| Start(origin) && |origin.cells| >= 2 && Run(origin, schedule) == s;
    RunAppend(origin, schedule, a);
  }

  lemma ReachableCells(s: State)
    requires Reachable(s)
    ensures |s.cells| >= 2 && |s.consumed| <= |s.reserved| == s.enqueue && Occupied(s) <= |s.cells|
  {
    ReachableInv(s);
  }

  /** At the enqueue position the turn shows exactly whether a cell is free. */
  lemma TurnExact(s: State)
    requires Reachable(s)
    ensures |s.cells| > 0
    ensures s.cells[Index(s, s.enqueue)].turn == s.enqueue <==> Occupied(s) < |s.cells|
    ensures s.cells[Index(s, s.enqueue)].turn <= s.enqueue
  {
    ReachableInv(s);
    hide ProducersOk, ConsumerOk;
    if s.enqueue < |s.consumed| + |s.cells| {
      assert CellOk(s, s.enqueue);
    } else {
      NextLap(|s.cells|, |s.consumed|);
      assert CellOk(s, |s.consumed|);
    }
  }

  /** Only producer `i` has moved. */
  predicate SameBut(s: State, s': State, i: nat) {
    && s'.cells == s.cells && s'.enqueue == s.enqueue && s'.dequeue == s.dequeue && s'.consumer == s.consumer
    && s'.reserved == s.reserved && s'.consumed == s.consumed && |s'.producers| == |s.producers|
    && (forall j :: 0 <= j < |s.producers| && j != i ==> s'.producers[j] == s.producers[j])
  }

  lemma QuietEffect(s: State, i: nat, m: ProducerMove)
    requires Enabled(s, Produce(i, m)) && !m.Write? && !m.StoreTurn? && !Wins(s, i, m)
    ensures SameBut(s, Step(s, Produce(i, m)), i)
    ensures Step(s, Produce(i, m)).producers == s.producers[i := NextProducer(s, i, m)]
  {}

  lemma BeginEffect(s: State, i: nat, record: Record)
    requires |s.cells| > 0 && i < |s.producers| && s.producers[i].Idle?
    ensures SameBut(s, Step(s, Produce(i, Begin(record))), i)
    ensures Step(s, Produce(i, Begin(record))).producers[i] ==
            if IsValid(record, |s.cells|) then Probing(record, s.enqueue, 0, 2) else Returned(Invalid, 0, 3, false)
  {
    hide IsValid;
  }

  /** The four steps of a successful publication after the compare-exchange is offered. */
  function Completed(s: State, i: nat): State {
    Step(Step(Step(Step(s, Produce(i, Decide)), Produce(i, Write)), Produce(i, StoreTurn)), Produce(i, Return))
  }

  lemma CompletedEffect(s: State, i: nat)
    requires Enabled(s, Produce(i, Decide)) && Wins(s, i, Decide)
    ensures var p, t := s.producers[i], Completed(s, i);
            && t.cells == s.cells[Index(s, p.position) := Cell(p.position + 1, Envelope(p.record, p.position))]
            && t.enqueue == s.enqueue + 1 && t.dequeue == s.dequeue && t.consumer == s.consumer
            && t.reserved == s.reserved + [p.record] && t.consumed == s.consumed
            && |t.producers| == |s.producers| && t.producers[i].Idle?
  {}

  lemma CompletedReachable(s: State, i: nat)
    requires Reachable(s)
    ensures Reachable(Completed(s, i))
  {
    hide Reachable, Step;
    var s1 := Step(s, Produce(i, Decide));
    var s2 := Step(s1, Produce(i, Write));
    ReachableStep(s, Produce(i, Decide));
    ReachableStep(s1, Produce(i, Write));
    ReachableStep(s2, Produce(i, StoreTurn));
    ReachableStep(Step(s2, Produce(i, StoreTurn)), Produce(i, Return));
  }

  class Ring {
    const cells: array<Cell>
    const producerCount: nat
    var enqueue: nat
    var dequeue: nat
    ghost var model: State

    ghost predicate Valid()
      reads this, cells
    {
      && Reachable(model) && model.cells == cells[..] && model.enqueue == enqueue && model.dequeue == dequeue
      && cells.Length >= 2 && |model.producers| == producerCount
    }

    constructor (capacity: nat, producers: nat)
      requires capacity >= 2
      ensures Valid() && cells.Length == capacity && producerCount == producers && Start(model)
    {
      var table := new Cell[capacity](_ => Cell(0, Envelope(Record(0, 0, 0), 0)));
      var index := 0;
      while index < capacity
        invariant index <= capacity && forall k :: 0 <= k < index ==> table[k].turn == k
      {
        table[index] := table[index].(turn := index);
        index := index + 1;
      }
      cells, producerCount, enqueue, dequeue := table, producers, 0, 0;
      model := State(table[..], 0, 0, seq(producers, _ => Idle), Resting, [], []);
      new;
      assert Run(model, []) == model;
    }

    ghost method Track(a: Action)
      requires Reachable(model)
      modifies this`model
      ensures model == Step(old(model), a) && Reachable(model)
    {
      hide Step, Reachable;
      ReachableStep(model, a);
      model := Step(model, a);
    }

    /** Writes the reserved cell and passes its turn on. */
    method Finish(i: nat, record: Record, position: nat)
      requires Valid() && Enabled(model, Produce(i, Decide)) && Wins(model, i, Decide)
      requires model.producers[i].record == record && model.producers[i].position == position
      modifies this`enqueue, this`model, cells
      ensures Valid() && model == Completed(old(model), i) && model.producers[i].Idle?
    {
      hide Reachable, Step, Completed;
      CompletedEffect(model, i);
      CompletedReachable(model, i);
      var k := position % cells.Length;
      ghost var before := cells[..];
      enqueue := position + 1;
      cells[k] := cells[k].(envelope := Envelope(record, position));
      cells[k] := cells[k].(turn := position + 1);
      assert cells[..] == before[k := cells[k]];
      model := Completed(model, i);
    }

    /** Ends a call that did not publish. */
    ghost method Leave(i: nat)
      requires Valid() && i < |model.producers| && model.producers[i].Returned?
      modifies this`model
      ensures Valid() && SameBut(old(model), model, i) && model.producers[i].Idle?
    {
      hide Reachable, Step;
      QuietEffect(model, i, Return);
      Track(Produce(i, Return));
    }

    /** One probe: the turn is read and acted on. A call that neither publishes nor finds the ring full goes on with
        the position it saw last. */
    method Probe(i: nat, record: Record, position: nat, ghost probe: nat, actions: nat)
      returns (done: bool, status: Status, next: nat, spent: nat)
      requires Valid() && i < |model.producers| && probe < MAXIMUM_PROBES && position <= enqueue
      requires model.producers[i] == Probing(record, position, probe, actions)
      modifies this`enqueue, this`model, cells
      ensures Valid() && i < |model.producers|
      ensures !done ==>
                && SameBut(old(model), model, i) && next == enqueue && spent == actions + 2 &&
                   cells[..] == old(cells[..])
                && model.producers[i] == Probing(record, next, probe + 1, spent)
      ensures position == old(enqueue) ==> done && (status.Accepted? <==> Occupied(old(model)) < cells.Length)
      ensures done ==> model.producers[i].Idle? && spent <= actions + 6 && (status.Accepted? || status.Full?)
      ensures done && status.Full? ==>
                SameBut(old(model), model, i) && Occupied(old(model)) == cells.Length && cells[..] == old(cells[..])
      ensures done && status.Accepted? ==>
                && Occupied(old(model)) < cells.Length && position == old(enqueue)
                && model.reserved == old(model).reserved + [record] && model.consumed == old(model).consumed
    {
      hide Reachable, Step, Completed, Occupied;
      SeenTurn(model, position);
      var turn := cells[position % cells.Length].turn;
      QuietEffect(model, i, LoadTurn);
      Track(Produce(i, LoadTurn));
      done, status, next, spent := true, Full, position, actions + 1;
      if turn == position && enqueue == position {
        CompletedEffect(model, i);
        Finish(i, record, position);
        status, spent := Accepted, spent + 5;
        return;
      }
      QuietEffect(model, i, Decide);
      Track(Produce(i, Decide));
      if turn < position {
        Leave(i);
        spent := spent + 2;
        return;
      }
      done, next, spent := false, enqueue, spent + 1;
    }

    /** The probes of a call that has loaded the position `start`, which may be out of date. A call that loaded the
        current one publishes exactly when a cell is free; the number of actions is bounded in any case. */
    method PublishFrom(i: nat, record: Record, start: nat) returns (status: Status, position: nat, actions: nat)
      requires Valid() && i < producerCount && start <= enqueue
      requires model.producers[i] == Probing(record, start, 0, 2)
      modifies this`enqueue, this`model, cells
      ensures Valid() && model.producers[i].Idle? && actions <= MAXIMUM_ACTIONS && !status.Invalid?
      ensures start == old(enqueue) ==> status == if Occupied(old(model)) < cells.Length then Accepted else Full
      ensures status.Full? ==> Occupied(old(model)) == cells.Length
      ensures status.Accepted? ==>
                && Occupied(old(model)) < cells.Length && position == old(enqueue)
                && model.reserved == old(model).reserved + [record] && model.consumed == old(model).consumed
      ensures !status.Accepted? ==> SameBut(old(model), model, i) && cells[..] == old(cells[..])
    {
      hide Reachable, Step, Completed;
      position, actions := start, 2;
      var probe := 0;
      while probe < MAXIMUM_PROBES
        invariant Valid() && probe <= MAXIMUM_PROBES && actions == 2 + 2 * probe && position <= enqueue
        invariant SameBut(old(model), model, i) && cells[..] == old(cells[..]) && enqueue == old(enqueue)
        invariant model.producers[i] == Probing(record, position, probe, actions)
        invariant if probe == 0 then position == start else start != old(enqueue)
      {
        var done, outcome, next, spent := Probe(i, record, position, probe, actions);
        if done {
          return outcome, position, spent;
        }
        position, actions, probe := next, spent, probe + 1;
      }
      QuietEffect(model, i, LoadTurn);
      Track(Produce(i, LoadTurn));
      Leave(i);
      status, actions := Contended, actions + 2;
    }

    /** Publishes a record: an accepted one is last in the queue, under the position the queue had reached. A call
        that is not interrupted refuses a valid record exactly when no cell is free. */
    method TryPublish(i: nat, record: Record) returns (status: Status, position: nat, actions: nat)
      requires Valid() && (i < producerCount ==> model.producers[i].Idle?)
      modifies this`enqueue, this`model, cells
      ensures Valid() && (i < producerCount ==> model.producers[i].Idle?) && actions <= MAXIMUM_ACTIONS
      ensures status == if i >= producerCount || !IsValid(record, cells.Length) then Invalid
                        else if Occupied(old(model)) < cells.Length then Accepted else Full
      ensures status.Accepted? ==>
                && position == old(enqueue)
                && model.reserved == old(model).reserved + [record] && model.consumed == old(model).consumed
      ensures !status.Accepted? ==>
                model.reserved == old(model).reserved && model.consumed == old(model).consumed &&
                cells[..] == old(cells[..])
    {
      hide Reachable, Step, Completed, IsValid;
      if i >= producerCount {
        return Invalid, 0, 3;
      }
      BeginEffect(model, i, record);
      Track(Produce(i, Begin(record)));
      if !IsValid(record, cells.Length) {
        Leave(i);
        return Invalid, 0, 3;
      }
      status, position, actions := PublishFrom(i, record, enqueue);
    }

    /** Takes the next position if it has been published: the oldest record of the queue. */
    method TryConsume() returns (status: ConsumeStatus, taken: Envelope)
      requires Valid() && model.consumer.Resting?
      modifies this`dequeue, this`model, cells
      ensures Valid() && model.consumer.Resting? && model.reserved == old(model).reserved
      ensures status.NoRecord? ==> model.consumed == old(model).consumed && cells[..] == old(cells[..])
      ensures status.NoRecord? ==> (status.pending <==> Occupied(old(model)) > 0)
      ensures status.Taken? <==> Occupied(old(model)) > 0 && !HeldAt(old(model), |old(model).consumed|)
      ensures status.Taken? ==>
                && |old(model).consumed| < |old(model).reserved|
                && taken == Envelope(old(model).reserved[|old(model).consumed|], |old(model).consumed|)
                && model.consumed == old(model).consumed + [taken]
    {
      hide Reachable, Step, Taken';
      ReachableCells(model);
      var position := dequeue;
      var k := position % cells.Length;
      taken := cells[k].envelope;
      if cells[k].turn != position + 1 {
        MissEffect(model);
        MissReachable(model);
        model := Missed'(model);
        return NoRecord(enqueue > position), taken;
      }
      TakeEffect(model);
      TakeReachable(model);
      ghost var before := cells[..];
      cells[k] := cells[k].(turn := position + cells.Length);
      dequeue := position + 1;
      assert cells[..] == before[k := cells[k]];
      model := Taken'(model);
      return Taken, taken;
    }
  }

  datatype ConsumeStatus = Taken | NoRecord(pending: bool)

  /** The three accesses of a call that finds nothing, and the rest. */
  function Missed'(s: State): State {
    Step(Step(Step(s, Consume(ReadTurn)), Consume(ReadCount)), Consume(Rest))
  }

  /** The four accesses of a call that takes a record. */
  function Taken'(s: State): State {
    Step(Step(Step(Step(s, Consume(ReadTurn)), Consume(ReadCell)), Consume(FreeCell)), Consume(Advance))
  }

  lemma MissEffect(s: State)
    requires Reachable(s) && s.consumer.Resting? && |s.cells| > 0
    requires s.cells[Index(s, s.dequeue)].turn != s.dequeue + 1
    ensures Missed'(s) == s && s.dequeue == |s.consumed| && (s.enqueue > s.dequeue ==> HeldAt(s, s.dequeue))
  {
    ReachableInv(s);
    if s.enqueue > s.dequeue {
      ReachableHeld(s);
      assert CellOk(s, |s.consumed|) && HeldOk(s, |s.consumed|);
    }
    hide CellsOk, ProducersOk;
  }

  lemma ReachableHeld(s: State)
    requires Reachable(s)
    ensures AllHeld(s)
  {
    hide AllHeld, Start;
    var origin: State, schedule: seq<Action> :| Start(origin) && |origin.cells| >= 2 && Run(origin, schedule) == s;
    RunHeld(origin, schedule);
  }

  /** A published position is in nobody's hands. */
  lemma PublishedNotHeld(s: State, p: nat)
    requires Inv(s) && s.cells[Index(s, p)].turn == p + 1
    ensures !HeldAt(s, p)
  {
    forall i | 0 <= i < |s.producers|
      ensures !HoldsAt(s.producers[i], p)
    {
      assert ProducerOk(s, s.producers[i]);
    }
  }

  lemma MissReachable(s: State)
    requires Reachable(s)
    ensures Reachable(Missed'(s))
  {
    hide Reachable, Step;
    var s1 := Step(s, Consume(ReadTurn));
    ReachableStep(s, Consume(ReadTurn));
    ReachableStep(s1, Consume(ReadCount));
    ReachableStep(Step(s1, Consume(ReadCount)), Consume(Rest));
  }

  lemma TakeEffect(s: State)
    requires Reachable(s) && s.consumer.Resting? && |s.cells| > 0
    requires s.cells[Index(s, s.dequeue)].turn == s.dequeue + 1
    ensures var t, k := Taken'(s), Index(s, s.dequeue);
            && s.dequeue == |s.consumed| < |s.reserved| &&
               s.cells[k].envelope == Envelope(s.reserved[s.dequeue], s.dequeue)
            && t.cells == s.cells[k := s.cells[k].(turn := s.dequeue + |s.cells|)]
            && t.consumed == s.consumed + [s.cells[k].envelope] && t.reserved == s.reserved
            && t.dequeue == s.dequeue + 1 && t.enqueue == s.enqueue && t.consumer.Resting?
            && t.producers == s.producers && !HeldAt(s, s.dequeue)
  {
    ReachableInv(s);
    PublishedNotHeld(s, s.dequeue);
    assert CellOk(s, |s.consumed|);
    hide CellsOk, ProducersOk;
  }

  lemma TakeReachable(s: State)
    requires Reachable(s)
    ensures Reachable(Taken'(s))
  {
    hide Reachable, Step;
    var s1 := Step(s, Consume(ReadTurn));
    var s2 := Step(s1, Consume(ReadCell));
    ReachableStep(s, Consume(ReadTurn));
    ReachableStep(s1, Consume(ReadCell));
    ReachableStep(s2, Consume(FreeCell));
    ReachableStep(Step(s2, Consume(FreeCell)), Consume(Advance));
  }

  lemma SeenTurn(s: State, position: nat)
    requires Reachable(s)
    ensures |s.cells| > 0
    ensures position <= s.enqueue && s.cells[Index(s, position)].turn < position ==> Occupied(s) == |s.cells|
    ensures position == s.enqueue == s.cells[Index(s, position)].turn ==> Occupied(s) < |s.cells|
    ensures position == s.enqueue ==> s.cells[Index(s, position)].turn <= position
  {
    hide CellsOk, ProducersOk, ConsumerOk;
    ReachableInv(s);
    ReachableCells(s);
    TurnExact(s);
    if position <= s.enqueue {
      TurnSeen(s, position);
    }
  }
}
