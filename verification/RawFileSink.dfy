/** The Raw file sink (src/io/raw_file_sink.cpp).

The worker encodes a frame into a claimed buffer and submits it; the loop thread appends one frame at
a time, continues partial writes, and stops at the first failure. Each action is one block run under
the sink's mutex (or, for Encode, the worker's write into a buffer only it may touch). A write
completion carries an arbitrary result and the bytes that really reached the file, which on an error
may be any prefix of the bytes submitted.
*/
module RawFileSink {
  import opened Bytes
  import opened DeliveryAccounting

  datatype SlotState = Free | Reserved | Queued | Writing

  /** `ticket` is a history variable: the position of the slot's frame among all submitted frames. */
  datatype Slot = Slot(
    state: SlotState, delivery: Delivery, generation: nat, sequence: nat, encoded: nat, written: nat,
    buffer: seq<byte>, ticket: nat)

  /** One submitted frame and the slot that carried it. */
  datatype Frame = Frame(sequence: nat, bytes: seq<byte>, slot: nat)

  /** The worker's FileWriteClaim. */
  datatype Claim = NoClaim | Claimed(index: nat, generation: nat) | Encoded(index: nat, generation: nat, length: nat)

  /** What became of each submitted frame, in order, and how many deliveries were retired. `orderly` tells that
      sequences were submitted as 0, 1, 2, ..., retired in that order, and not discarded. */
  datatype Book = Book(outcomes: seq<Outcome>, retired: nat, orderly: bool)

  /** `frames`, `done`, `partial` and `book` are history variables: every submitted frame in order, how many
      appends have run to their end, what the file holds of the next frame, and the outcomes. */
  datatype State = State(
    slots: seq<Slot>, bufferBytes: nat, file: seq<byte>, writing: bool, writingSlot: nat, failure: int,
    stopping: bool, closeRequested: bool, closing: bool, closed: bool, asyncOpen: bool, claim: Claim,
    frames: seq<Frame>, done: nat, partial: seq<byte>, book: Book)

  datatype Action =
    | ClaimWrite
    | ResetClaim
    | Encode(frame: seq<byte>)
    | Submit(sequence: nat)
    | Wake
    | CompleteWrite(result: int, landed: nat)
    | CompleteClose
    | Retire(sequence: nat)
    | Stop
    | RequestClose
    | Discard

  /** UV_EIO, as libuv defines it on POSIX systems. */
  const EIO: int := -5

  /* --- Building blocks ------------------------------------------------------------------------ */

  function Content(slot: Slot): seq<byte>
    requires slot.encoded <= |slot.buffer|
  {
    slot.buffer[..slot.encoded]
  }

  function CancelSlot(slot: Slot): Slot {
    if slot.state.Queued? then slot.(state := Free, delivery := Cancelled) else slot
  }

  function CancelQueued(slots: seq<Slot>): seq<Slot> {
    seq(|slots|, i requires 0 <= i < |slots| => CancelSlot(slots[i]))
  }

  /** A slot has the frame with this ticket in its queue. */
  predicate QueuedTicket(slots: seq<Slot>, k: nat) {
    exists i :: 0 <= i < |slots| && slots[i].state.Queued? && slots[i].ticket == k
  }

  /** Every queued frame is cancelled. */
  function CancelBook(book: Book, slots: seq<Slot>): Book {
    var outcomes := book.outcomes;
    book.(outcomes := seq(|outcomes|, k requires 0 <= k < |outcomes| =>
            if QueuedTicket(slots, k) then outcomes[k].(delivery := Cancelled) else outcomes[k]))
  }

  /** The frame with this ticket has its outcome. */
  function MarkBook(book: Book, k: nat, delivery: Delivery): Book {
    if k < |book.outcomes| then book.(outcomes := book.outcomes[k := book.outcomes[k].(delivery := delivery)]) else book
  }

  function SubmitBook(book: Book, inOrder: bool, o: Outcome): Book {
    Book(book.outcomes + [o], book.retired, book.orderly && inOrder)
  }

  function RetireBook(book: Book, sequence: nat): Book {
    Book(book.outcomes, book.retired + 1, book.orderly && sequence == book.retired)
  }

  function DiscardBook(book: Book): Book { book.(orderly := false) }

  /** The first slot that a claim may take, or the number of slots. */
  function Claimable(slots: seq<Slot>, from: nat): (index: nat)
    requires from <= |slots|
    ensures from <= index <= |slots|
    ensures index < |slots| ==> slots[index].state.Free? && slots[index].delivery.Retired?
    ensures forall i :: from <= i < index ==> !(slots[i].state.Free? && slots[i].delivery.Retired?)
    decreases |slots| - from
  {
    if from == |slots| || (slots[from].state.Free? && slots[from].delivery.Retired?) then from
    else Claimable(slots, from + 1)
  }

  /** The queued slot with the lowest sequence among the first `count`, or the number of slots. */
  function LowestQueued(slots: seq<Slot>, count: nat): (index: nat)
    requires count <= |slots|
    ensures index == |slots| || (index < count && slots[index].state.Queued?)
    ensures forall i :: 0 <= i < count && slots[i].state.Queued? ==>
      index < count && slots[index].sequence <= slots[i].sequence
  {
    if count == 0 then |slots| else
    var selected := LowestQueued(slots, count - 1);
    if slots[count - 1].state.Queued? &&
       (selected == |slots| || slots[count - 1].sequence < slots[selected].sequence)
    then count - 1 else selected
  }

  /** The completed slot that carries a sequence, or the number of slots. */
  function CompletedAt(slots: seq<Slot>, sequence: nat, from: nat): (index: nat)
    requires from <= |slots|
    ensures from <= index <= |slots|
    ensures index < |slots| ==> Completed(slots[index].delivery) && slots[index].sequence == sequence
    ensures forall i :: from <= i < index ==> !(Completed(slots[i].delivery) && slots[i].sequence == sequence)
    decreases |slots| - from
  {
    if from == |slots| || (Completed(slots[from].delivery) && slots[from].sequence == sequence) then from
    else CompletedAt(slots, sequence, from + 1)
  }

  /** Starts the next append, or the close once nothing is left to append. */
  function Pump(s: State): State {
    if s.writing || s.closing || s.closed then s else
    var selected := LowestQueued(s.slots, |s.slots|);
    if s.failure == 0 && !s.stopping && selected < |s.slots| then StartWrite(s, selected)
    else if s.closeRequested then s.(closing := true)
    else s
  }

  function StartWrite(s: State, index: nat): State
    requires index < |s.slots|
  {
    s.(slots := s.slots[index := s.slots[index].(state := Writing)], writing := true, writingSlot := index)
  }

  predicate CanComplete(s: State, result: int, landed: nat) {
    && s.writing && s.writingSlot < |s.slots|
    && s.slots[s.writingSlot].written + landed <= s.slots[s.writingSlot].encoded <= |s.slots[s.writingSlot].buffer|
    && (result >= 0 ==> landed == result)
  }

  /** What a failed write leaves before the pump. */
  function FailedWrite(s: State, bytes: seq<byte>, error: int): State
    requires s.writingSlot < |s.slots|
  {
    s.(writing := false, file := s.file + bytes, partial := s.partial + bytes,
       slots := CancelQueued(s.slots[s.writingSlot := s.slots[s.writingSlot].(state := Free, delivery := Failed)]),
       book := CancelBook(MarkBook(s.book, s.slots[s.writingSlot].ticket, Failed), s.slots),
       failure := error)
  }

  /** A short write continues from the known offset. */
  function ContinuedWrite(s: State, bytes: seq<byte>): State
    requires s.writingSlot < |s.slots|
  {
    var slot := s.slots[s.writingSlot];
    s.(file := s.file + bytes, partial := s.partial + bytes,
       slots := s.slots[s.writingSlot := slot.(written := slot.written + |bytes|)])
  }

  /** The whole frame reached the file. */
  function DeliveredWrite(s: State, bytes: seq<byte>): State
    requires s.writingSlot < |s.slots|
  {
    var slot := s.slots[s.writingSlot];
    s.(writing := false, file := s.file + bytes, partial := [], done := s.done + 1,
       slots := s.slots[s.writingSlot := slot.(state := Free, delivery := Delivered,
                                               written := slot.written + |bytes|)],
       book := MarkBook(s.book, slot.ticket, Delivered))
  }

  /** The loop thread's write callback: failure, continuation or delivery, then the next pump. */
  function Finish(s: State, result: int, landed: nat): State
    requires CanComplete(s, result, landed)
  {
    var slot := s.slots[s.writingSlot];
    var bytes := slot.buffer[slot.written..slot.written + landed];
    if result < 0 then Pump(FailedWrite(s, bytes, result))
    else if result == 0 && slot.written != slot.encoded then Pump(FailedWrite(s, bytes, EIO))
    else if slot.written + landed < slot.encoded then ContinuedWrite(s, bytes)
    else Pump(DeliveredWrite(s, bytes))
  }

  /** Queues the encoded frame, or cancels it when the route no longer takes frames. */
  function Submitted(s: State, sequence: nat): State
    requires s.claim.Encoded? && s.claim.index < |s.slots|
    requires s.claim.length <= |s.slots[s.claim.index].buffer|
  {
    var i := s.claim.index;
    var accepted := !s.stopping && s.failure == 0 && s.asyncOpen;
    var slot := s.slots[i].(sequence := sequence, encoded := s.claim.length, written := 0, ticket := |s.frames|,
                            state := if accepted then Queued else Free,
                            delivery := if accepted then InFlight else Cancelled);
    s.(slots := s.slots[i := slot], claim := NoClaim,
       frames := s.frames + [Frame(sequence, Content(slot), i)],
       book := SubmitBook(s.book, sequence == |s.frames|, Outcome(slot.delivery, s.claim.length)))
  }

  /* --- The state machine ---------------------------------------------------------------------- */

  predicate ClaimHolds(s: State) {
    && !s.claim.NoClaim?
    && s.claim.index < |s.slots|
    && s.slots[s.claim.index].state.Reserved?
    && s.slots[s.claim.index].generation == s.claim.generation
  }

  predicate Enabled(s: State, a: Action) {
    match a
    case ClaimWrite =>
      && s.claim.NoClaim? && !s.stopping && !s.closeRequested && s.failure == 0 && s.asyncOpen
      && Claimable(s.slots, 0) < |s.slots|
    case ResetClaim => ClaimHolds(s)
    case Encode(frame) =>
      && ClaimHolds(s) && s.claim.Claimed?
      && 0 < |frame| <= s.bufferBytes && |s.slots[s.claim.index].buffer| == s.bufferBytes
    case Submit(sequence) =>
      && ClaimHolds(s) && s.claim.Encoded? && s.claim.length <= |s.slots[s.claim.index].buffer|
      && (s.frames != [] ==> s.frames[|s.frames| - 1].sequence < sequence)
    case Wake => s.asyncOpen
    case CompleteWrite(result, landed) => CanComplete(s, result, landed)
    case CompleteClose => s.closing
    case Retire(sequence) => CompletedAt(s.slots, sequence, 0) < |s.slots|
    case Stop => true
    case RequestClose => true
    case Discard => true
  }

  function Step(s: State, a: Action): State {
    if !Enabled(s, a) then s else
    match a
    case ClaimWrite =>
      var i := Claimable(s.slots, 0);
      var generation := s.slots[i].generation + 1;
      s.(slots := s.slots[i := s.slots[i].(generation := generation, state := Reserved)],
         claim := Claimed(i, generation))
    case ResetClaim =>
      s.(slots := s.slots[s.claim.index := s.slots[s.claim.index].(state := Free)], claim := NoClaim)
    case Encode(frame) =>
      var i := s.claim.index;
      s.(slots := s.slots[i := s.slots[i].(buffer := Splice(s.slots[i].buffer, 0, frame))],
         claim := Encoded(i, s.claim.generation, |frame|))
    case Submit(sequence) => Submitted(s, sequence)
    case Wake => Pump(s)
    case CompleteWrite(result, landed) => Finish(s, result, landed)
    case CompleteClose => s.(closing := false, closed := true, asyncOpen := false)
    case Retire(sequence) =>
      var i := CompletedAt(s.slots, sequence, 0);
      s.(slots := s.slots[i := s.slots[i].(delivery := Retired)], book := RetireBook(s.book, sequence))
    case Stop =>
      s.(stopping := true, closeRequested := true, slots := CancelQueued(s.slots),
         book := CancelBook(s.book, s.slots))
    case RequestClose => s.(closeRequested := true)
    case Discard =>
      s.(slots := seq(|s.slots|, i requires 0 <= i < |s.slots| => s.slots[i].(delivery := Retired)),
         book := DiscardBook(s.book))
  }

  function Run(s: State, schedule: seq<Action>): State {
    if schedule == [] then s
    else Step(Run(s, schedule[..|schedule| - 1]), schedule[|schedule| - 1])
  }

  /* --- The invariant --------------------------------------------------------------------------- */

  function Concat(frames: seq<Frame>): seq<byte> {
    if frames == [] then [] else Concat(frames[..|frames| - 1]) + frames[|frames| - 1].bytes
  }

  /** The first frame that has not been started. */
  function Next(s: State): nat {
    s.done + (if s.writing then 1 else 0)
  }

  ghost predicate SlotOk(slot: Slot, i: nat, frames: seq<Frame>, done: nat, active: bool, failed: bool) {
    && slot.encoded <= |slot.buffer|
    && (slot.state.Queued? ==>
          && done + (if active then 1 else 0) <= slot.ticket < |frames|
          && frames[slot.ticket] == Frame(slot.sequence, Content(slot), i)
          && slot.written == 0 < slot.encoded)
    && (slot.state.Writing? ==>
          && active && slot.ticket == done < |frames|
          && frames[done] == Frame(slot.sequence, Content(slot), i)
          && slot.written < slot.encoded)
    && (slot.delivery.Delivered? ==>
          slot.state.Free? && slot.ticket < done <= |frames| &&
          frames[slot.ticket] == Frame(slot.sequence, Content(slot), i))
    && (slot.delivery.Failed? ==> slot.state.Free? && failed && slot.ticket == done)
    && (slot.delivery.InFlight? ==> slot.state.Queued? || slot.state.Writing?)
    && (slot.state.Reserved? ==> slot.delivery.Retired?)
  }

  ghost predicate SlotsOk(s: State) {
    && (forall i :: 0 <= i < |s.slots| ==>
          && SlotOk(s.slots[i], i, s.frames, s.done, s.writing, s.failure != 0)
          && |s.slots[i].buffer| == s.bufferBytes
          && (s.slots[i].state.Writing? <==> s.writing && i == s.writingSlot)
          && (s.slots[i].state.Queued? ==> s.failure == 0 && !s.stopping)
          && (s.slots[i].state.Reserved? ==> !s.claim.NoClaim? && i == s.claim.index))
    && (s.writing ==> s.writingSlot < |s.slots|)
    && (!s.claim.NoClaim? ==> ClaimHolds(s))
    && (s.claim.Encoded? ==> 0 < s.claim.length <= s.bufferBytes)
  }

  /** While the route takes frames, every frame not yet started is queued in its slot. */
  ghost predicate QueueOk(s: State) {
    s.failure == 0 && !s.stopping && s.asyncOpen ==>
      forall j :: Next(s) <= j < |s.frames| ==>
        && s.frames[j].slot < |s.slots|
        && s.slots[s.frames[j].slot].state.Queued?
        && s.slots[s.frames[j].slot].ticket == j
  }

  ghost predicate FramesOk(s: State) {
    && (forall i, j :: 0 <= i < j < |s.frames| ==> s.frames[i].sequence < s.frames[j].sequence)
    && (forall i :: 0 <= i < |s.frames| ==> 0 < |s.frames[i].bytes|)
  }

  /** The file is the delivered frames followed by what was written of the next one. */
  ghost predicate FileOk(s: State) {
    && s.done <= |s.frames|
    && s.file == Concat(s.frames[..s.done]) + s.partial
    && (s.partial != [] ==> s.done < |s.frames| && s.partial <= s.frames[s.done].bytes)
    && (s.writing ==>
          && s.done < |s.frames| && s.writingSlot < |s.slots|
          && s.slots[s.writingSlot].written == |s.partial| && s.partial <= s.frames[s.done].bytes)
    && (!s.writing && s.failure == 0 ==> s.partial == [])
    && (s.writing ==> s.failure == 0 && !s.closing && !s.closed)
  }

  ghost predicate Inv(s: State) {
    && SlotsOk(s) && QueueOk(s) && FramesOk(s) && FileOk(s)
    && (s.closed <==> !s.asyncOpen) && (s.stopping ==> s.closeRequested)
  }

  ghost predicate Start(s: State) {
    && (forall i :: 0 <= i < |s.slots| ==>
          s.slots[i].state.Free? && s.slots[i].delivery.Retired? && s.slots[i].encoded == 0 &&
          |s.slots[i].buffer| == s.bufferBytes)
    && s.file == [] && s.frames == [] && s.done == 0 && s.partial == [] && s.book.outcomes == [] && s.book.retired == 0
    && !s.writing && s.failure == 0 && !s.stopping && !s.closeRequested && !s.closing && !s.closed
    && s.asyncOpen && s.claim.NoClaim?
  }

  lemma StartInv(s: State)
    requires Start(s)
    ensures Inv(s)
  {
  }

  /* --- Every action preserves the invariant ----------------------------------------------------- */

  lemma ClaimStep(s: State)
    requires Inv(s) && Enabled(s, ClaimWrite)
    ensures Inv(Step(s, ClaimWrite))
  {
  }

  lemma ResetStep(s: State)
    requires Inv(s) && Enabled(s, ResetClaim)
    ensures Inv(Step(s, ResetClaim))
  {
  }

  lemma EncodeStep(s: State, frame: seq<byte>)
    requires Inv(s) && Enabled(s, Encode(frame))
    ensures Inv(Step(s, Encode(frame)))
  {
  }

  /** A change of an idle slot that stays idle touches neither the queue nor the file. */
  lemma IdleFrame(s: State, i: nat, slot: Slot, book: Book)
    requires Inv(s) && i < |s.slots|
    requires s.slots[i].state.Free? || s.slots[i].state.Reserved?
    requires slot.state.Free? || slot.state.Reserved?
    ensures var s' := s.(slots := s.slots[i := slot], book := book);
            QueueOk(s') && FramesOk(s') && FileOk(s')
  {
    if s.writing {
      assert s.slots[s.writingSlot].state.Writing?;
    }
  }

  lemma RetireSlots(s: State, i: nat, book: Book)
    requires SlotsOk(s) && i < |s.slots| && Completed(s.slots[i].delivery)
    ensures s.slots[i].state.Free?
    ensures SlotsOk(s.(slots := s.slots[i := s.slots[i].(delivery := Retired)], book := book))
  {
  }

  lemma RetireStep(s: State, sequence: nat)
    requires Inv(s) && Enabled(s, Retire(sequence))
    ensures Inv(Step(s, Retire(sequence)))
  {
    hide SlotsOk, QueueOk, FramesOk, FileOk;
    var i := CompletedAt(s.slots, sequence, 0);
    RetireSlots(s, i, RetireBook(s.book, sequence));
    IdleFrame(s, i, s.slots[i].(delivery := Retired), RetireBook(s.book, sequence));
  }

  lemma SubmitStep(s: State, sequence: nat)
    requires Inv(s) && Enabled(s, Submit(sequence))
    ensures Inv(Submitted(s, sequence))
  {
    hide SlotsOk, QueueOk, FramesOk, FileOk;
    SubmitSlots(s, sequence);
    SubmitQueue(s, sequence);
    SubmitFile(s, sequence);
  }

  lemma SubmitQueue(s: State, sequence: nat)
    requires Inv(s) && Enabled(s, Submit(sequence))
    ensures QueueOk(Submitted(s, sequence))
  {
    hide SlotOk, FileOk, FramesOk;
  }

  lemma SubmitFile(s: State, sequence: nat)
    requires Inv(s) && Enabled(s, Submit(sequence))
    ensures FramesOk(Submitted(s, sequence)) && FileOk(Submitted(s, sequence))
  {
    hide QueueOk, SlotOk;
    assert Submitted(s, sequence).frames[..s.done] == s.frames[..s.done];
  }

  lemma SubmitSlots(s: State, sequence: nat)
    requires Inv(s) && Enabled(s, Submit(sequence))
    ensures SlotsOk(Submitted(s, sequence))
  {
  }

  lemma StopStep(s: State)
    requires Inv(s)
    ensures Inv(Step(s, Stop))
  {
    hide CancelBook, SlotsOk;
    StopSlots(s);
    StopFile(s);
  }

  lemma StopSlots(s: State)
    requires Inv(s)
    ensures SlotsOk(Step(s, Stop))
  {
    hide CancelBook, QueueOk, FramesOk, FileOk, SlotOk;
    var s' := Step(s, Stop);
    forall i | 0 <= i < |s'.slots|
      ensures SlotOk(s'.slots[i], i, s'.frames, s'.done, s'.writing, s'.failure != 0)
    {
      CancelSlotOk(s.slots[i], i, s.frames, s.done, s.writing, s.failure != 0);
    }
  }

  lemma CancelSlotOk(slot: Slot, i: nat, frames: seq<Frame>, done: nat, active: bool, failed: bool)
    requires SlotOk(slot, i, frames, done, active, failed)
    ensures SlotOk(CancelSlot(slot), i, frames, done, active, failed)
  {}

  lemma StopFile(s: State)
    requires Inv(s)
    ensures FileOk(Step(s, Stop))
  {
    hide CancelBook, QueueOk, FramesOk, SlotOk;
  }

  lemma DiscardStep(s: State)
    requires Inv(s)
    ensures Inv(Step(s, Discard))
  {
  }

  /** The lowest queued sequence belongs to the first frame that has not been started. */
  lemma LowestIsNext(s: State)
    requires Inv(s) && s.failure == 0 && !s.stopping && s.asyncOpen
    requires LowestQueued(s.slots, |s.slots|) < |s.slots|
    ensures s.slots[LowestQueued(s.slots, |s.slots|)].ticket == Next(s) < |s.frames|
  {
    var k := LowestQueued(s.slots, |s.slots|);
    assert SlotOk(s.slots[k], k, s.frames, s.done, s.writing, s.failure != 0);
    var m := s.frames[Next(s)].slot;
    assert s.slots[m].state.Queued? && s.slots[m].ticket == Next(s);
    assert SlotOk(s.slots[m], m, s.frames, s.done, s.writing, s.failure != 0);
  }

  lemma StartWriteInv(s: State, k: nat)
    requires Inv(s) && !s.writing && !s.closing && s.failure == 0 && !s.stopping && s.asyncOpen
    requires k < |s.slots| && s.slots[k].state.Queued? && s.slots[k].ticket == s.done
    ensures Inv(StartWrite(s, k))
  {
    var s' := StartWrite(s, k);
    forall i | 0 <= i < |s.slots| && i != k && s.slots[i].state.Queued?
      ensures s.slots[i].ticket != s.done
    {
      assert SlotOk(s.slots[i], i, s.frames, s.done, s.writing, s.failure != 0);
      assert SlotOk(s.slots[k], k, s.frames, s.done, s.writing, s.failure != 0);
    }
    assert SlotsOk(s');
    assert QueueOk(s');
  }

  lemma PumpInv(s: State)
    requires Inv(s)
    ensures Inv(Pump(s))
  {
    if !s.writing && !s.closing && !s.closed && s.failure == 0 && !s.stopping &&
       LowestQueued(s.slots, |s.slots|) < |s.slots| {
      LowestIsNext(s);
      StartWriteInv(s, LowestQueued(s.slots, |s.slots|));
    }
  }

  lemma FailedWriteInv(s: State, landed: nat, error: int)
    requires Inv(s) && CanComplete(s, -1, landed) && error != 0
    ensures var slot := s.slots[s.writingSlot];
            Inv(FailedWrite(s, slot.buffer[slot.written..slot.written + landed], error))
  {
    hide SlotsOk, CancelQueued, CancelSlot, CancelBook, MarkBook, FramesOk;
    var slot := s.slots[s.writingSlot];
    var bytes := slot.buffer[slot.written..slot.written + landed];
    FailedSlots(s, bytes, error);
    WrittenPrefix(s, landed);
    SameFrames(s, FailedWrite(s, bytes, error));
  }

  lemma SameFrames(s: State, s': State)
    requires FramesOk(s) && s'.frames == s.frames
    ensures FramesOk(s')
  {}

  lemma FailedSlots(s: State, bytes: seq<byte>, error: int)
    requires Inv(s) && s.writing && error != 0
    ensures SlotsOk(FailedWrite(s, bytes, error))
  {
    hide FramesOk, QueueOk, CancelBook, MarkBook;
  }

  /** The bytes that landed extend what the file holds of the active frame. */
  lemma WrittenPrefix(s: State, landed: nat)
    requires Inv(s) && CanComplete(s, -1, landed)
    ensures var slot := s.slots[s.writingSlot];
            s.done < |s.frames| && |s.frames[s.done].bytes| == slot.encoded &&
            s.partial + slot.buffer[slot.written..slot.written + landed] ==
            s.frames[s.done].bytes[..slot.written + landed]
  {
    hide FramesOk, QueueOk;
    var slot := s.slots[s.writingSlot];
    assert SlotOk(slot, s.writingSlot, s.frames, s.done, s.writing, s.failure != 0);
  }

  lemma ContinuedWriteInv(s: State, landed: nat)
    requires Inv(s) && CanComplete(s, landed, landed)
    requires s.slots[s.writingSlot].written + landed < s.slots[s.writingSlot].encoded
    ensures var slot := s.slots[s.writingSlot];
            Inv(ContinuedWrite(s, slot.buffer[slot.written..slot.written + landed]))
  {
    var slot := s.slots[s.writingSlot];
    var bytes := slot.buffer[slot.written..slot.written + landed];
    ContinuedSlots(s, bytes);
    WrittenPrefix(s, landed);
    assert slot.state.Writing?;
    hide SlotsOk;
  }

  lemma ContinuedSlots(s: State, bytes: seq<byte>)
    requires Inv(s) && s.writing && s.slots[s.writingSlot].written + |bytes| < s.slots[s.writingSlot].encoded
    ensures SlotsOk(ContinuedWrite(s, bytes))
  {
    hide FramesOk, QueueOk, FileOk;
  }

  lemma DeliveredWriteInv(s: State, landed: nat)
    requires Inv(s) && CanComplete(s, landed, landed)
    requires s.slots[s.writingSlot].written + landed == s.slots[s.writingSlot].encoded
    ensures var slot := s.slots[s.writingSlot];
            Inv(DeliveredWrite(s, slot.buffer[slot.written..slot.written + landed]))
  {
    var slot := s.slots[s.writingSlot];
    var bytes := slot.buffer[slot.written..slot.written + landed];
    DeliveredSlots(s, bytes);
    WrittenPrefix(s, landed);
    DeliveredQueue(s, bytes);
    hide SlotsOk, QueueOk;
    DeliveredFile(s, bytes);
  }

  lemma DeliveredQueue(s: State, bytes: seq<byte>)
    requires Inv(s) && s.writing
    ensures QueueOk(DeliveredWrite(s, bytes))
  {
    hide FramesOk, FileOk, SlotOk;
    assert s.slots[s.writingSlot].state.Writing?;
  }

  lemma DeliveredFile(s: State, bytes: seq<byte>)
    requires FileOk(s) && s.writing && s.partial + bytes == s.frames[s.done].bytes
    ensures FileOk(DeliveredWrite(s, bytes))
  {
    assert s.frames[..s.done + 1][..s.done] == s.frames[..s.done];
    assert s.file + bytes == Concat(s.frames[..s.done]) + (s.partial + bytes);
  }

  lemma DeliveredSlots(s: State, bytes: seq<byte>)
    requires Inv(s) && s.writing
    ensures SlotsOk(DeliveredWrite(s, bytes))
  {
    hide FramesOk, QueueOk;
  }

  lemma FinishStep(s: State, result: int, landed: nat)
    requires Inv(s) && CanComplete(s, result, landed)
    ensures Inv(Finish(s, result, landed))
  {
    hide Inv, Pump, FailedWrite, DeliveredWrite, ContinuedWrite;
    var slot := s.slots[s.writingSlot];
    var bytes := slot.buffer[slot.written..slot.written + landed];
    if result < 0 {
      FailedWriteInv(s, landed, result);
      PumpInv(FailedWrite(s, bytes, result));
    } else if result == 0 && slot.written != slot.encoded {
      FailedWriteInv(s, landed, EIO);
      PumpInv(FailedWrite(s, bytes, EIO));
    } else if slot.written + landed < slot.encoded {
      ContinuedWriteInv(s, landed);
    } else {
      DeliveredWriteInv(s, landed);
      PumpInv(DeliveredWrite(s, bytes));
    }
  }

  lemma InvStep(s: State, a: Action)
    requires Inv(s)
    ensures Inv(Step(s, a))
  {
    if Enabled(s, a) {
      match a {
        case ClaimWrite => ClaimStep(s);
        case ResetClaim => ResetStep(s);
        case Encode(frame) => EncodeStep(s, frame);
        case Submit(sequence) => SubmitStep(s, sequence);
        case Wake => PumpInv(s);
        case CompleteWrite(result, landed) => FinishStep(s, result, landed);
        case CompleteClose =>
        case Retire(sequence) => RetireStep(s, sequence);
        case Stop => StopStep(s);
        case RequestClose =>
        case Discard => DiscardStep(s);
      }
    }
  }

  lemma {:induction false} InvRun(s: State, schedule: seq<Action>)
    requires Inv(s)
    ensures Inv(Run(s, schedule))
    decreases |schedule|
  {
    hide Inv, Step;
    if schedule != [] {
      InvRun(s, schedule[..|schedule| - 1]);
      InvStep(Run(s, schedule[..|schedule| - 1]), schedule[|schedule| - 1]);
    }
  }

  /* --- What every run guarantees ------------------------------------------------------------------ */

  /** On every run the file is the concatenation, in admission order, of the first `done` submitted
      frames, followed by at most a prefix of the next one. The prefix is empty unless that frame is
      being written or its write failed. */
  lemma FileIsDeliveredFrames(s: State, schedule: seq<Action>)
    requires Start(s)
    ensures var t := Run(s, schedule);
            && t.done <= |t.frames|
            && t.file == Concat(t.frames[..t.done]) + t.partial
            && (t.partial != [] ==> t.done < |t.frames| && t.partial <= t.frames[t.done].bytes)
            && (!t.writing && t.failure == 0 ==> t.partial == [])
            && (forall i, j :: 0 <= i < j < |t.frames| ==> t.frames[i].sequence < t.frames[j].sequence)
  {
    StartInv(s);
    InvRun(s, schedule);
  }

  /* --- What became of the frames -------------------------------------------------------------------- */

  /** Slot `i` still has the frame with ticket `k` to append. */
  predicate Holds(slots: seq<Slot>, i: nat, k: nat) {
    i < |slots| && slots[i].ticket == k && (slots[i].state.Queued? || slots[i].state.Writing?)
  }

  /** A frame is delivered exactly when its append has run to its end; a failed one is the frame after those,
      a cancelled one was never begun, and any other is still in its slot. */
  predicate OutcomeOk(o: Outcome, k: nat, frame: Frame, done: nat, failed: bool, slots: seq<Slot>) {
    && o.bytes == |frame.bytes| && !o.delivery.Retired?
    && (o.delivery.Delivered? <==> k < done)
    && (o.delivery.Failed? ==> k == done && failed)
    && (o.delivery.InFlight? ==> Holds(slots, frame.slot, k))
  }

  predicate Carries(slot: Slot) {
    slot.state.Queued? || slot.state.Writing? || !slot.delivery.Retired?
  }

  /** What a slot says of its frame is what became of it. */
  predicate EntryOk(slot: Slot, i: nat, frames: seq<Frame>, outcomes: seq<Outcome>)
    requires |outcomes| == |frames|
  {
    && (Carries(slot) ==>
          && slot.ticket < |outcomes| && outcomes[slot.ticket].bytes == slot.encoded
          && frames[slot.ticket].sequence == slot.sequence && frames[slot.ticket].slot == i)
    && (slot.state.Queued? || slot.state.Writing? ==> outcomes[slot.ticket].delivery.InFlight?)
    && (!slot.delivery.Retired? ==> outcomes[slot.ticket].delivery == slot.delivery)
  }

  /** The slot with the frame of ticket `k` has not been retired. */
  predicate StillCarried(slots: seq<Slot>, i: nat, k: nat) {
    i < |slots| && slots[i].ticket == k && !slots[i].delivery.Retired?
  }

  /** Sequences are tickets, and exactly those from `retired` on are carried. */
  predicate OrderlyOk(s: State) {
    && s.book.retired <= |s.frames|
    && (forall k :: 0 <= k < |s.frames| ==> s.frames[k].sequence == k)
    && (forall k :: s.book.retired <= k < |s.frames| ==> StillCarried(s.slots, s.frames[k].slot, k))
    && (forall i :: 0 <= i < |s.slots| && Carries(s.slots[i]) ==>
          !s.slots[i].delivery.Retired? && s.book.retired <= s.slots[i].ticket)
  }

  predicate BookOk(s: State) {
    && |s.book.outcomes| == |s.frames|
    && (forall k :: 0 <= k < |s.frames| ==>
          OutcomeOk(s.book.outcomes[k], k, s.frames[k], s.done, s.failure != 0, s.slots))
    && (forall i :: 0 <= i < |s.slots| ==> EntryOk(s.slots[i], i, s.frames, s.book.outcomes))
    && (s.book.orderly ==> OrderlyOk(s))
  }

  /** The history and the slots that carry frames are as they were. */
  predicate SameCarried(s: State, s': State) {
    && s'.frames == s.frames && s'.done == s.done && s'.book == s.book && (s.failure != 0 ==> s'.failure != 0)
    && |s'.slots| == |s.slots|
    && forall i :: 0 <= i < |s.slots| ==> SameCarrier(s.slots[i], s'.slots[i])
  }

  predicate SameCarrier(slot: Slot, slot': Slot) {
    && slot'.delivery == slot.delivery
    && (slot.state.Queued? || slot.state.Writing? <==> slot'.state.Queued? || slot'.state.Writing?)
    && (Carries(slot) ==>
          slot'.ticket == slot.ticket && slot'.encoded == slot.encoded && slot'.sequence == slot.sequence)
  }

  lemma BookFrame(s: State, s': State)
    requires BookOk(s) && SameCarried(s, s')
    ensures BookOk(s')
  {
    forall k | 0 <= k < |s'.frames|
      ensures OutcomeOk(s'.book.outcomes[k], k, s'.frames[k], s'.done, s'.failure != 0, s'.slots)
    {
      assert OutcomeOk(s.book.outcomes[k], k, s.frames[k], s.done, s.failure != 0, s.slots);
      if Holds(s.slots, s.frames[k].slot, k) {
        assert SameCarrier(s.slots[s.frames[k].slot], s'.slots[s.frames[k].slot]);
      }
    }
    forall i | 0 <= i < |s'.slots|
      ensures EntryOk(s'.slots[i], i, s'.frames, s'.book.outcomes)
    {
      assert SameCarrier(s.slots[i], s'.slots[i]) && EntryOk(s.slots[i], i, s.frames, s.book.outcomes);
    }
    if s.book.orderly {
      OrderlyFrame(s, s');
    }
  }

  lemma OrderlyFrame(s: State, s': State)
    requires OrderlyOk(s) && SameCarried(s, s')
    ensures OrderlyOk(s')
  {
    forall k | s'.book.retired <= k < |s'.frames|
      ensures StillCarried(s'.slots, s'.frames[k].slot, k)
    {
      assert StillCarried(s.slots, s.frames[k].slot, k);
      assert SameCarrier(s.slots[s.frames[k].slot], s'.slots[s.frames[k].slot]);
    }
  }

  lemma SubmitBookOk(s: State, sequence: nat)
    requires Inv(s) && BookOk(s) && Enabled(s, Submit(sequence))
    ensures BookOk(Submitted(s, sequence))
  {
    hide Inv, OrderlyOk;
    ClaimedIdle(s);
    DoneBound(s);
    var s' := Submitted(s, sequence);
    forall k | 0 <= k < |s'.frames|
      ensures OutcomeOk(s'.book.outcomes[k], k, s'.frames[k], s'.done, s'.failure != 0, s'.slots)
    {
      if k < |s.frames| {
        assert OutcomeOk(s.book.outcomes[k], k, s.frames[k], s.done, s.failure != 0, s.slots);
      }
    }
    forall j | 0 <= j < |s'.slots|
      ensures EntryOk(s'.slots[j], j, s'.frames, s'.book.outcomes)
    {
      assert EntryOk(s.slots[j], j, s.frames, s.book.outcomes);
    }
    if s'.book.orderly {
      SubmitOrderly(s, sequence);
    }
  }

  lemma DoneBound(s: State)
    requires Inv(s)
    ensures s.done <= |s.frames|
  {
    hide SlotsOk, QueueOk, FramesOk;
  }

  lemma SubmitOrderly(s: State, sequence: nat)
    requires OrderlyOk(s) && Enabled(s, Submit(sequence)) && sequence == |s.frames|
    requires s.slots[s.claim.index].delivery.Retired?
    ensures OrderlyOk(Submitted(s, sequence))
  {
    var s' := Submitted(s, sequence);
    forall k | s'.book.retired <= k < |s'.frames|
      ensures StillCarried(s'.slots, s'.frames[k].slot, k)
    {
      if k < |s.frames| {
        assert StillCarried(s.slots, s.frames[k].slot, k);
      }
    }
  }

  /** The claimed slot carries nothing. */
  lemma ClaimedIdle(s: State)
    requires Inv(s) && !s.claim.NoClaim?
    ensures ClaimHolds(s) && s.slots[s.claim.index].delivery.Retired?
  {
    hide QueueOk, FramesOk, FileOk;
    assert SlotOk(s.slots[s.claim.index], s.claim.index, s.frames, s.done, s.writing, s.failure != 0);
  }

  lemma CancelBookOk(s: State, s': State)
    requires BookOk(s)
    requires s'.frames == s.frames && s'.done == s.done && s'.failure == s.failure
    requires s'.slots == CancelQueued(s.slots) && s'.book == CancelBook(s.book, s.slots)
    ensures BookOk(s')
  {
    forall k | 0 <= k < |s'.frames|
      ensures OutcomeOk(s'.book.outcomes[k], k, s'.frames[k], s'.done, s'.failure != 0, s'.slots)
    {
      assert OutcomeOk(s.book.outcomes[k], k, s.frames[k], s.done, s.failure != 0, s.slots);
      if QueuedTicket(s.slots, k) {
        var i :| 0 <= i < |s.slots| && s.slots[i].state.Queued? && s.slots[i].ticket == k;
        assert EntryOk(s.slots[i], i, s.frames, s.book.outcomes);
      }
    }
    forall i | 0 <= i < |s'.slots|
      ensures EntryOk(s'.slots[i], i, s'.frames, s'.book.outcomes)
    {
      CancelEntry(s.slots, i, s.frames, s.book);
    }
    if s'.book.orderly {
      CancelOrderly(s, s');
    }
  }

  lemma CancelOrderly(s: State, s': State)
    requires OrderlyOk(s) && s'.frames == s.frames && s'.slots == CancelQueued(s.slots)
    requires s'.book.retired == s.book.retired
    ensures OrderlyOk(s')
  {
    forall k | s'.book.retired <= k < |s'.frames|
      ensures StillCarried(s'.slots, s'.frames[k].slot, k)
    {
      assert StillCarried(s.slots, s.frames[k].slot, k);
    }
  }

  /** Only the slot's own frame is cancelled with it. */
  lemma CancelEntry(slots: seq<Slot>, i: nat, frames: seq<Frame>, book: Book)
    requires i < |slots| && |frames| == |book.outcomes|
    requires forall j :: 0 <= j < |slots| ==> EntryOk(slots[j], j, frames, book.outcomes)
    ensures EntryOk(CancelSlot(slots[i]), i, frames, CancelBook(book, slots).outcomes)
  {
    assert EntryOk(slots[i], i, frames, book.outcomes);
    if slots[i].state.Queued? {
      assert QueuedTicket(slots, slots[i].ticket);
    }
  }

  /** The append of the active slot comes to its end. */
  lemma MarkBookOk(s: State, s': State, slot: Slot, d: Delivery)
    requires BookOk(s) && s.writingSlot < |s.slots| && s.slots[s.writingSlot].state.Writing?
    requires s.slots[s.writingSlot].ticket == s.done && s.failure == 0
    requires slot.state.Free? && slot.delivery == d && slot.ticket == s.slots[s.writingSlot].ticket
    requires slot.encoded == s.slots[s.writingSlot].encoded && slot.sequence == s.slots[s.writingSlot].sequence
    requires s'.frames == s.frames && s'.slots == s.slots[s.writingSlot := slot] &&
             s'.book == MarkBook(s.book, s.done, d)
    requires (d.Delivered? && s'.done == s.done + 1) || (d.Failed? && s'.done == s.done && s'.failure != 0)
    ensures BookOk(s')
  {
    var w := s.writingSlot;
    assert EntryOk(s.slots[w], w, s.frames, s.book.outcomes);
    forall k | 0 <= k < |s'.frames|
      ensures OutcomeOk(s'.book.outcomes[k], k, s'.frames[k], s'.done, s'.failure != 0, s'.slots)
    {
      assert OutcomeOk(s.book.outcomes[k], k, s.frames[k], s.done, s.failure != 0, s.slots);
    }
    forall i | 0 <= i < |s'.slots|
      ensures EntryOk(s'.slots[i], i, s'.frames, s'.book.outcomes)
    {
      assert EntryOk(s.slots[i], i, s.frames, s.book.outcomes);
    }
    if s'.book.orderly {
      forall k | s'.book.retired <= k < |s'.frames|
        ensures StillCarried(s'.slots, s'.frames[k].slot, k)
      {
        assert StillCarried(s.slots, s.frames[k].slot, k);
      }
    }
  }

  lemma ActiveTicket(s: State)
    requires Inv(s) && s.writing
    ensures s.writingSlot < |s.slots| && s.slots[s.writingSlot].state.Writing?
    ensures s.slots[s.writingSlot].ticket == s.done && s.failure == 0
  {
    hide QueueOk, FramesOk;
    assert SlotOk(s.slots[s.writingSlot], s.writingSlot, s.frames, s.done, s.writing, s.failure != 0);
  }

  lemma FailedBookOk(s: State, bytes: seq<byte>, error: int)
    requires Inv(s) && BookOk(s) && s.writing && error != 0
    ensures s.writingSlot < |s.slots| && BookOk(FailedWrite(s, bytes, error))
  {
    hide Inv, BookOk, CancelQueued, CancelBook, MarkBook;
    ActiveTicket(s);
    var slot := s.slots[s.writingSlot].(state := Free, delivery := Failed);
    var m := s.(slots := s.slots[s.writingSlot := slot], book := MarkBook(s.book, s.done, Failed), failure := error);
    MarkBookOk(s, m, slot, Failed);
    SameQueue(m.book, s.slots, m.slots);
    CancelBookOk(m, FailedWrite(s, bytes, error));
  }

  /** Slots with the same queue cancel the same frames. */
  lemma SameQueue(book: Book, slots: seq<Slot>, slots': seq<Slot>)
    requires |slots'| == |slots|
    requires forall i :: 0 <= i < |slots| ==>
      slots[i].state.Queued? == slots'[i].state.Queued? && slots[i].ticket == slots'[i].ticket
    ensures CancelBook(book, slots') == CancelBook(book, slots)
  {
    forall k: nat
      ensures QueuedTicket(slots', k) == QueuedTicket(slots, k)
    {
      if QueuedTicket(slots, k) {
        var i :| 0 <= i < |slots| && slots[i].state.Queued? && slots[i].ticket == k;
        assert slots'[i].state.Queued?;
      }
      if QueuedTicket(slots', k) {
        var i :| 0 <= i < |slots'| && slots'[i].state.Queued? && slots'[i].ticket == k;
        assert slots[i].state.Queued?;
      }
    }
    assert CancelBook(book, slots').outcomes == CancelBook(book, slots).outcomes;
  }

  lemma DeliveredBookOk(s: State, bytes: seq<byte>)
    requires Inv(s) && BookOk(s) && s.writing
    ensures s.writingSlot < |s.slots| && BookOk(DeliveredWrite(s, bytes))
  {
    hide Inv, BookOk, MarkBook;
    ActiveTicket(s);
    var s' := DeliveredWrite(s, bytes);
    MarkBookOk(s, s', s'.slots[s.writingSlot], Delivered);
  }

  lemma PumpBookOk(s: State)
    requires BookOk(s)
    ensures BookOk(Pump(s))
  {
    hide BookOk;
    BookFrame(s, Pump(s));
  }

  lemma FinishBookOk(s: State, result: int, landed: nat)
    requires Inv(s) && BookOk(s) && CanComplete(s, result, landed)
    ensures BookOk(Finish(s, result, landed))
  {
    hide Inv, BookOk, Pump, FailedWrite, DeliveredWrite;
    var slot := s.slots[s.writingSlot];
    var bytes := slot.buffer[slot.written..slot.written + landed];
    if result < 0 {
      FailedBookOk(s, bytes, result);
      PumpBookOk(FailedWrite(s, bytes, result));
    } else if result == 0 && slot.written != slot.encoded {
      FailedBookOk(s, bytes, EIO);
      PumpBookOk(FailedWrite(s, bytes, EIO));
    } else if slot.written + landed < slot.encoded {
      BookFrame(s, ContinuedWrite(s, bytes));
    } else {
      DeliveredBookOk(s, bytes);
      PumpBookOk(DeliveredWrite(s, bytes));
    }
  }

  lemma RetireBookOk(s: State, sequence: nat)
    requires BookOk(s) && Enabled(s, Retire(sequence))
    ensures BookOk(Step(s, Retire(sequence)))
  {
    hide OrderlyOk, CompletedAt;
    var s', i := Step(s, Retire(sequence)), CompletedAt(s.slots, sequence, 0);
    assert EntryOk(s.slots[i], i, s.frames, s.book.outcomes);
    if s'.book.orderly {
      RetireOrderly(s, s', i);
    }
    forall k | 0 <= k < |s'.frames|
      ensures OutcomeOk(s'.book.outcomes[k], k, s'.frames[k], s'.done, s'.failure != 0, s'.slots)
    {
      assert OutcomeOk(s.book.outcomes[k], k, s.frames[k], s.done, s.failure != 0, s.slots);
    }
    forall j | 0 <= j < |s'.slots|
      ensures EntryOk(s'.slots[j], j, s'.frames, s'.book.outcomes)
    {
      assert EntryOk(s.slots[j], j, s.frames, s.book.outcomes);
    }
  }

  lemma RetireOrderly(s: State, s': State, i: nat)
    requires BookOk(s) && OrderlyOk(s) && i < |s.slots| && Completed(s.slots[i].delivery)
    requires s.slots[i].sequence == s.book.retired && s'.book.retired == s.book.retired + 1 && s'.frames == s.frames
    requires s'.slots == s.slots[i := s.slots[i].(delivery := Retired)]
    ensures OrderlyOk(s')
  {
    assert EntryOk(s.slots[i], i, s.frames, s.book.outcomes);
    forall k | s'.book.retired <= k < |s'.frames|
      ensures StillCarried(s'.slots, s'.frames[k].slot, k)
    {
      assert StillCarried(s.slots, s.frames[k].slot, k);
    }
    forall j | 0 <= j < |s'.slots| && Carries(s'.slots[j])
      ensures !s'.slots[j].delivery.Retired? && s'.book.retired <= s'.slots[j].ticket
    {
      assert EntryOk(s.slots[j], j, s.frames, s.book.outcomes);
    }
  }

  lemma DiscardBookOk(s: State)
    requires BookOk(s)
    ensures BookOk(Step(s, Discard))
  {
    var s' := Step(s, Discard);
    forall k | 0 <= k < |s'.frames|
      ensures OutcomeOk(s'.book.outcomes[k], k, s'.frames[k], s'.done, s'.failure != 0, s'.slots)
    {
      assert OutcomeOk(s.book.outcomes[k], k, s.frames[k], s.done, s.failure != 0, s.slots);
    }
    forall j | 0 <= j < |s'.slots|
      ensures EntryOk(s'.slots[j], j, s'.frames, s'.book.outcomes)
    {
      assert EntryOk(s.slots[j], j, s.frames, s.book.outcomes);
    }
  }

  lemma BookStep(s: State, a: Action)
    requires Inv(s) && BookOk(s)
    ensures BookOk(Step(s, a))
  {
    hide BookOk, Inv, Pump, Finish, Submitted, CancelQueued, CancelBook, DiscardBook, RetireBook;
    if Enabled(s, a) {
      match a {
        case ClaimWrite => BookFrame(s, Step(s, a));
        case ResetClaim =>
          ClaimedIdle(s);
          BookFrame(s, Step(s, a));
        case Encode(_) =>
          ClaimedIdle(s);
          BookFrame(s, Step(s, a));
        case Submit(sequence) => SubmitBookOk(s, sequence);
        case Wake => PumpBookOk(s);
        case CompleteWrite(result, landed) => FinishBookOk(s, result, landed);
        case CompleteClose => BookFrame(s, Step(s, a));
        case Retire(sequence) => RetireBookOk(s, sequence);
        case Stop => CancelBookOk(s, Step(s, a));
        case RequestClose => BookFrame(s, Step(s, a));
        case Discard => DiscardBookOk(s);
      }
    }
  }

  lemma {:induction false} RunBook(s: State, schedule: seq<Action>)
    requires Start(s)
    ensures BookOk(Run(s, schedule))
    decreases |schedule|
  {
    if schedule != [] {
      hide Inv, Step, Start, BookOk;
      var before := schedule[..|schedule| - 1];
      RunBook(s, before);
      StartInv(s);
      InvRun(s, before);
      BookStep(Run(s, before), schedule[|schedule| - 1]);
    }
  }

  /** In every run a frame is marked delivered exactly when its append has run to its end, so the file is the
      frames marked delivered, in order, and at most a prefix of the next. A frame marked failed is that next
      one, and every later frame is cancelled or still in its slot. */
  lemma DeliveredFramesMakeTheFile(s: State, schedule: seq<Action>, k: nat)
    requires Start(s) && k < |Run(s, schedule).frames|
    ensures var t := Run(s, schedule);
            && |t.book.outcomes| == |t.frames| && t.file == DeliveredBytes(t.frames, t.book.outcomes) + t.partial
            && var o := t.book.outcomes[k];
               && o.bytes == |t.frames[k].bytes| && !o.delivery.Retired?
               && (o.delivery.Delivered? <==> k < t.done)
               && (o.delivery.Failed? ==> k == t.done && t.failure != 0)
               && (o.delivery.Cancelled? ==> k >= t.done)
               && (o.delivery.InFlight? ==> k >= t.done && Holds(t.slots, t.frames[k].slot, k))
  {
    hide Inv, BookOk, Start, Run, Concat, DeliveredBytes, Holds;
    RunBook(s, schedule);
    FileIsDeliveredFrames(s, schedule);
    BookDelivered(Run(s, schedule), k);
  }

  lemma BookDelivered(s: State, k: nat)
    requires BookOk(s) && k < |s.frames| && s.done <= |s.frames|
    ensures |s.book.outcomes| == |s.frames|
    ensures OutcomeOk(s.book.outcomes[k], k, s.frames[k], s.done, s.failure != 0, s.slots)
    ensures DeliveredBytes(s.frames, s.book.outcomes) == Concat(s.frames[..s.done])
  {
    forall j | 0 <= j < |s.frames|
      ensures s.book.outcomes[j].delivery.Delivered? <==> j < s.done
    {
      assert OutcomeOk(s.book.outcomes[j], j, s.frames[j], s.done, s.failure != 0, s.slots);
    }
    DeliveredPrefix(s.frames, s.book.outcomes, s.done);
  }

  /** The frames marked delivered, one after the other. */
  function DeliveredBytes(frames: seq<Frame>, outcomes: seq<Outcome>): seq<byte>
    requires |outcomes| == |frames|
  {
    if frames == [] then []
    else
      var n := |frames| - 1;
      DeliveredBytes(frames[..n], outcomes[..n]) + (if outcomes[n].delivery.Delivered? then frames[n].bytes else [])
  }

  lemma {:induction false} DeliveredPrefix(frames: seq<Frame>, outcomes: seq<Outcome>, done: nat)
    requires |outcomes| == |frames| && done <= |frames|
    requires forall k :: 0 <= k < |frames| ==> (outcomes[k].delivery.Delivered? <==> k < done)
    ensures DeliveredBytes(frames, outcomes) == Concat(frames[..done])
    decreases |frames|
  {
    if frames != [] {
      var n := |frames| - 1;
      if done == |frames| {
        DeliveredPrefix(frames[..n], outcomes[..n], n);
        assert frames[..n][..n] == frames[..n] && frames[..done] == frames;
      } else {
        DeliveredPrefix(frames[..n], outcomes[..n], done);
        assert frames[..n][..done] == frames[..done];
      }
    }
  }

  function Entries(slots: seq<Slot>): seq<Entry> {
    seq(|slots|, i requires 0 <= i < |slots| => Entry(slots[i].delivery, slots[i].sequence, slots[i].encoded))
  }

  /** As long as the worker submits 0, 1, 2, ... and retires in that order, the slots represent the unretired
      sequences and their outcomes: what the reports are built from. */
  lemma OrderlyRepresents(s: State)
    requires BookOk(s) && s.book.orderly
    ensures Represents(Entries(s.slots), s.book.outcomes, s.book.retired)
  {
    var entries, outcomes, retired := Entries(s.slots), s.book.outcomes, s.book.retired;
    forall i | 0 <= i < |entries| && !entries[i].delivery.Retired?
      ensures retired <= entries[i].sequence < |outcomes|
      ensures outcomes[entries[i].sequence] == Outcome(entries[i].delivery, entries[i].bytes)
      ensures s.slots[i].ticket == entries[i].sequence && s.frames[s.slots[i].ticket].slot == i
    {
      assert Carries(s.slots[i]) && EntryOk(s.slots[i], i, s.frames, outcomes);
    }
    forall k | retired <= k < |outcomes|
      ensures Carried(entries, k)
    {
      var i := s.frames[k].slot;
      assert StillCarried(s.slots, i, k);
      assert Carries(s.slots[i]) && EntryOk(s.slots[i], i, s.frames, outcomes);
      assert entries[i].sequence == k;
    }
  }

  /** Frames are only added, and an outcome, once it is terminal, is never revised. */
  predicate OutcomesKept(a: seq<Outcome>, b: seq<Outcome>) {
    && |a| <= |b|
    && forall k :: 0 <= k < |a| ==> b[k].bytes == a[k].bytes && (!a[k].delivery.InFlight? ==> b[k] == a[k])
  }

  lemma OutcomesGrow(s: State, a: Action)
    requires Inv(s) && BookOk(s)
    ensures OutcomesKept(s.book.outcomes, Step(s, a).book.outcomes)
  {
    hide Pump, SlotsOk, QueueOk, FramesOk, FileOk, OrderlyOk;
    if Enabled(s, a) {
      if a.CompleteWrite? {
        ActiveTicket(s);
        FinishOutcomes(s, a.result, a.landed);
      } else if a.Stop? {
        CancelKept(s.book, s.slots, s.frames);
      } else if a.Wake? {
        PumpBook(s);
      }
    }
  }

  lemma PumpBook(s: State)
    ensures Pump(s).book == s.book
  {}

  lemma CancelKept(book: Book, slots: seq<Slot>, frames: seq<Frame>)
    requires |frames| == |book.outcomes|
    requires forall i :: 0 <= i < |slots| ==> EntryOk(slots[i], i, frames, book.outcomes)
    ensures OutcomesKept(book.outcomes, CancelBook(book, slots).outcomes)
  {
    forall k | 0 <= k < |book.outcomes| && QueuedTicket(slots, k)
      ensures book.outcomes[k].delivery.InFlight?
    {
      var i :| 0 <= i < |slots| && slots[i].state.Queued? && slots[i].ticket == k;
      assert EntryOk(slots[i], i, frames, book.outcomes);
    }
  }

  lemma FinishOutcomes(s: State, result: int, landed: nat)
    requires BookOk(s) && CanComplete(s, result, landed) && s.slots[s.writingSlot].state.Writing?
    ensures OutcomesKept(s.book.outcomes, Finish(s, result, landed).book.outcomes)
  {
    hide Pump, OrderlyOk;
    var slot := s.slots[s.writingSlot];
    var bytes := slot.buffer[slot.written..slot.written + landed];
    PumpBook(FailedWrite(s, bytes, result));
    PumpBook(FailedWrite(s, bytes, EIO));
    PumpBook(DeliveredWrite(s, bytes));
    assert EntryOk(slot, s.writingSlot, s.frames, s.book.outcomes);
    CancelKept(s.book, s.slots, s.frames);
  }

  /** Submitted frames are never taken back, and deliveries are never undone. */
  lemma HistoryGrows(s: State, a: Action)
    ensures s.frames <= Step(s, a).frames && s.done <= Step(s, a).done
    ensures s.file <= Step(s, a).file
  {
    if a.CompleteWrite? && Enabled(s, a) {
      FinishGrows(s, a.result, a.landed);
    }
    PumpHistory(s);
    hide Pump, Finish, CanComplete, Claimable, CompletedAt, CancelQueued;
  }

  lemma PumpHistory(s: State)
    ensures Pump(s).frames == s.frames && Pump(s).done == s.done && Pump(s).file == s.file
    ensures Pump(s).failure == s.failure
  {
  }

  lemma FinishGrows(s: State, result: int, landed: nat)
    requires CanComplete(s, result, landed)
    ensures var t := Finish(s, result, landed);
            t.frames == s.frames && s.done <= t.done && s.file <= t.file
  {
    hide Pump;
    var slot := s.slots[s.writingSlot];
    var bytes := slot.buffer[slot.written..slot.written + landed];
    PumpHistory(FailedWrite(s, bytes, result));
    PumpHistory(FailedWrite(s, bytes, EIO));
    PumpHistory(DeliveredWrite(s, bytes));
  }

  /** A frame marked delivered is in the file, whole and at its place. */
  lemma DeliveredIsInFile(s: State, i: nat)
    requires Inv(s) && i < |s.slots| && s.slots[i].delivery.Delivered?
    ensures var k, frame := s.slots[i].ticket, Content(s.slots[i]);
            && k < s.done <= |s.frames|
            && s.frames[k].sequence == s.slots[i].sequence
            && |Concat(s.frames[..k])| + |frame| <= |s.file|
            && s.file[|Concat(s.frames[..k])|..|Concat(s.frames[..k])| + |frame|] == frame
  {
    hide FramesOk, QueueOk;
    var k := s.slots[i].ticket;
    assert SlotOk(s.slots[i], i, s.frames, s.done, s.writing, s.failure != 0);
    ConcatPrefix(s.frames, k + 1, s.done);
    assert s.frames[..k + 1][..k] == s.frames[..k];
    assert Concat(s.frames[..k + 1]) == Concat(s.frames[..k]) + s.frames[k].bytes;
  }

  lemma {:induction false} ConcatPrefix(frames: seq<Frame>, k: nat, n: nat)
    requires k <= n <= |frames|
    ensures Concat(frames[..k]) <= Concat(frames[..n])
    decreases n
  {
    if k < n {
      ConcatPrefix(frames, k, n - 1);
      assert frames[..n][..n - 1] == frames[..n - 1];
    }
  }

  /** After a write failure nothing more is appended and no further frame counts as delivered. */
  lemma FailureIsFinal(s: State, a: Action)
    requires Inv(s) && s.failure != 0
    ensures Step(s, a).file == s.file && Step(s, a).failure == s.failure && Step(s, a).done == s.done
  {
    PumpHistory(s);
    hide SlotsOk, QueueOk, FramesOk, Pump, Finish, Claimable, CompletedAt, CancelQueued;
  }

  lemma {:induction false} NothingAfterFailure(s: State, schedule: seq<Action>)
    requires Inv(s) && s.failure != 0
    ensures Run(s, schedule).file == s.file
    ensures Run(s, schedule).failure == s.failure && Run(s, schedule).done == s.done
    decreases |schedule|
  {
    hide Inv, Step;
    if schedule != [] {
      var before := schedule[..|schedule| - 1];
      NothingAfterFailure(s, before);
      InvRun(s, before);
      FailureIsFinal(Run(s, before), schedule[|schedule| - 1]);
    }
  }

  /** Two versions of a slot carry the same frame. */
  predicate SameFrame(before: Slot, after: Slot) {
    && after.buffer == before.buffer && after.sequence == before.sequence
    && after.encoded == before.encoded && after.ticket == before.ticket
  }

  lemma PumpKeeps(s: State, i: nat)
    requires i < |s.slots|
    ensures |Pump(s).slots| == |s.slots| && SameFrame(s.slots[i], Pump(s).slots[i])
  {
  }

  lemma FinishKeeps(s: State, result: int, landed: nat, i: nat)
    requires CanComplete(s, result, landed) && i < |s.slots|
    ensures |Finish(s, result, landed).slots| == |s.slots|
    ensures SameFrame(s.slots[i], Finish(s, result, landed).slots[i])
  {
    hide Pump;
    var slot := s.slots[s.writingSlot];
    var bytes := slot.buffer[slot.written..slot.written + landed];
    if result < 0 {
      FailedKeeps(s, bytes, result, i);
    } else if result == 0 && slot.written != slot.encoded {
      FailedKeeps(s, bytes, EIO, i);
    } else if slot.written + landed >= slot.encoded {
      hide FailedWrite;
      PumpKeeps(DeliveredWrite(s, bytes), i);
    }
  }

  lemma FailedKeeps(s: State, bytes: seq<byte>, error: int, i: nat)
    requires s.writingSlot < |s.slots| && i < |s.slots|
    ensures var t := Pump(FailedWrite(s, bytes, error));
            |t.slots| == |s.slots| && SameFrame(s.slots[i], t.slots[i])
  {
    hide Pump;
    PumpKeeps(FailedWrite(s, bytes, error), i);
  }

  /** A slot's frame stays in its buffer as submitted until the worker has retired the delivery:
      nothing rewrites a frame while it is queued or being written. */
  lemma BufferKept(s: State, a: Action, i: nat)
    requires Inv(s) && i < |s.slots|
    requires s.slots[i].state.Queued? || s.slots[i].state.Writing? || !s.slots[i].delivery.Retired?
    ensures |Step(s, a).slots| == |s.slots| && SameFrame(s.slots[i], Step(s, a).slots[i])
  {
    hide Pump, Finish, QueueOk, FramesOk, FileOk;
    assert SlotOk(s.slots[i], i, s.frames, s.done, s.writing, s.failure != 0);
    SlotKept(s, a, i);
  }

  lemma SlotKept(s: State, a: Action, i: nat)
    requires i < |s.slots| && !s.slots[i].state.Reserved?
    requires !(s.slots[i].state.Free? && s.slots[i].delivery.Retired?)
    ensures |Step(s, a).slots| == |s.slots| && SameFrame(s.slots[i], Step(s, a).slots[i])
  {
    if Enabled(s, a) {
      if a.Wake? {
        PumpKeeps(s, i);
      } else if a.CompleteWrite? {
        FinishKeeps(s, a.result, a.landed, i);
      }
      hide Pump, Finish;
    }
  }

  /* --- The object ------------------------------------------------------------------------------------ */

  ghost predicate Reachable(s: State) {
    exists origin: State, schedule: seq<Action> :: Start(origin) && Run(origin, schedule) == s
  }

  lemma ReachableInv(s: State)
    requires Reachable(s)
    ensures Inv(s)
  {
    hide Inv, Step, Start;
    var origin: State, schedule :| Start(origin) && Run(origin, schedule) == s;
    StartInv(origin);
    InvRun(origin, schedule);
  }

  lemma ReachableStep(s: State, a: Action)
    requires Reachable(s)
    ensures Reachable(Step(s, a))
  {
    hide Step, Start;
    var origin: State, schedule :| Start(origin) && Run(origin, schedule) == s;
    assert (schedule + [a])[..|schedule|] == schedule;
    assert Run(origin, schedule + [a]) == Step(s, a);
  }

  lemma ClaimIsHeld(s: State)
    requires Reachable(s) && !s.claim.NoClaim?
    ensures ClaimHolds(s) && |s.slots[s.claim.index].buffer| == s.bufferBytes
  {
    hide Reachable;
    ReachableInv(s);
  }

  lemma ClaimEffect(s: State)
    requires s.claim.NoClaim?
    ensures var i := Claimable(s.slots, 0);
            Step(s, ClaimWrite) ==
            if s.stopping || s.closeRequested || s.failure != 0 || !s.asyncOpen || i == |s.slots| then s
            else s.(slots := s.slots[i := s.slots[i].(generation := s.slots[i].generation + 1, state := Reserved)],
                    claim := Claimed(i, s.slots[i].generation + 1))
  {
    hide Claimable;
  }

  lemma ActiveSlotWriting(s: State)
    requires Reachable(s) && s.writing && s.writingSlot < |s.slots|
    ensures s.slots[s.writingSlot].state.Writing?
  {
    hide Reachable;
    ReachableInv(s);
  }

  /** The state after encoding and submitting a frame through the held claim. */
  function Stored(s: State, sequence: nat, frame: seq<byte>): State
    requires s.claim.Claimed? && s.claim.index < |s.slots| && |frame| <= |s.slots[s.claim.index].buffer|
  {
    var accepted := !s.stopping && s.failure == 0 && s.asyncOpen;
    var slot := s.slots[s.claim.index].(
                  buffer := Splice(s.slots[s.claim.index].buffer, 0, frame), sequence := sequence, encoded := |frame|,
                  written := 0, ticket := |s.frames|, state := if accepted then Queued else Free,
                  delivery := if accepted then InFlight else Cancelled);
    s.(slots := s.slots[s.claim.index := slot], claim := NoClaim,
       frames := s.frames + [Frame(sequence, frame, s.claim.index)],
       book := SubmitBook(s.book, sequence == |s.frames|, Outcome(slot.delivery, |frame|)))
  }

  lemma StoreEffect(s: State, sequence: nat, frame: seq<byte>)
    requires ClaimHolds(s) && s.claim.Claimed? && |s.slots[s.claim.index].buffer| == s.bufferBytes
    requires 0 < |frame| <= s.bufferBytes
    requires s.frames != [] ==> s.frames[|s.frames| - 1].sequence < sequence
    ensures Step(Step(s, Encode(frame)), Submit(sequence)) == Stored(s, sequence, frame)
  {
    var s1 := Step(s, Encode(frame));
    assert s1.claim.Encoded? && ClaimHolds(s1);
    assert s1.slots[s.claim.index].buffer[..|frame|] == frame;
    assert Step(s1, Submit(sequence)) == Submitted(s1, sequence);
  }

  lemma StoreCall(s: State, sequence: nat, frame: seq<byte>)
    requires Reachable(s) && s.claim.Claimed? && 0 < |frame| <= s.bufferBytes
    requires s.frames != [] ==> s.frames[|s.frames| - 1].sequence < sequence
    ensures s.claim.index < |s.slots| && |s.slots[s.claim.index].buffer| == s.bufferBytes
    ensures Reachable(Step(Step(s, Encode(frame)), Submit(sequence)))
    ensures Step(Step(s, Encode(frame)), Submit(sequence)) == Stored(s, sequence, frame)
  {
    hide Reachable;
    ClaimIsHeld(s);
    StoreEffect(s, sequence, frame);
    ReachableStep(s, Encode(frame));
    ReachableStep(Step(s, Encode(frame)), Submit(sequence));
  }

  /** The write callback as one action of the machine. */
  lemma FinishCall(s: State, result: int, landed: nat)
    requires Reachable(s) && CanComplete(s, result, landed)
    ensures s.slots[s.writingSlot].state.Writing?
    ensures Reachable(Finish(s, result, landed))
    ensures Finish(s, result, landed) == Step(s, CompleteWrite(result, landed))
  {
    hide Reachable, Finish;
    ActiveSlotWriting(s);
    ReachableStep(s, CompleteWrite(result, landed));
  }

  lemma ReachableBook(s: State)
    requires Reachable(s)
    ensures BookOk(s)
  {
    hide BookOk, Step, Start;
    var origin: State, schedule :| Start(origin) && Run(origin, schedule) == s;
    RunBook(origin, schedule);
  }

  /** The slots' sums are those of the sequences they carry. */
  lemma SummaryCall(s: State, watermark: nat)
    requires Reachable(s)
    ensures s.book.orderly && s.book.retired <= watermark ==>
              && s.book.retired <= |s.book.outcomes|
              && Summarize(Entries(s.slots), watermark) ==
                 RangeSummary(s.book.outcomes, s.book.retired,
                              if watermark < |s.book.outcomes| then watermark else |s.book.outcomes|)
  {
    hide Reachable;
    ReachableBook(s);
    if s.book.orderly && s.book.retired <= watermark {
      OrderlyRepresents(s);
      SummaryExact(Entries(s.slots), s.book.outcomes, s.book.retired, watermark);
    }
  }

  /** The scan for the next sequence finds its slot exactly when its delivery has completed. */
  lemma RetireCall(s: State, sequence: nat)
    requires Reachable(s)
    ensures s.book.orderly && sequence == s.book.retired ==>
              var i, outcomes := CompletedAt(s.slots, sequence, 0), s.book.outcomes;
              && (i < |s.slots| <==> sequence < |outcomes| && Completed(outcomes[sequence].delivery))
              && (i < |s.slots| ==> outcomes[sequence] == Outcome(s.slots[i].delivery, s.slots[i].encoded))
  {
    hide Reachable, BookOk;
    ReachableBook(s);
    if s.book.orderly && sequence == s.book.retired {
      OrderlyRepresents(s);
      CompletedSlot(Entries(s.slots), s.book.outcomes, s.book.retired, sequence);
      FoundEntry(s.slots, sequence);
    }
  }

  lemma FoundEntry(slots: seq<Slot>, sequence: nat)
    ensures var i := CompletedAt(slots, sequence, 0);
            && (i < |slots| <==> exists j :: 0 <= j < |Entries(slots)| && Completed(Entries(slots)[j].delivery) &&
                                             Entries(slots)[j].sequence == sequence)
            && (i < |slots| ==> Entries(slots)[i] == Entry(slots[i].delivery, sequence, slots[i].encoded))
  {
    var i := CompletedAt(slots, sequence, 0);
    if i < |slots| {
      assert Completed(Entries(slots)[i].delivery);
    }
  }

  /** The sink's shared state. Every method is one block under its mutex; `model` tracks the machine. */
  class Sink {
    var slots: array<Slot>
    var writing: bool
    var writingSlot: nat
    var failure: int
    var stopping: bool
    var closeRequested: bool
    var closing: bool
    var closed: bool
    var asyncOpen: bool
    var submitted: nat
    ghost var model: State

    ghost predicate Valid()
      reads this, slots
    {
      Reachable(model) && Matches(model)
    }

    constructor (writeBuffers: nat, bufferBytes: nat)
      ensures Valid() && fresh(slots) && slots.Length == writeBuffers
      ensures Start(model) && model.bufferBytes == bufferBytes
    {
      var buffer := seq(bufferBytes, _ => 0);
      var slot := Slot(Free, Retired, 0, 0, 0, 0, buffer, 0);
      var table := new Slot[writeBuffers](_ => slot);
      slots := table;
      writing, writingSlot, failure, submitted := false, 0, 0, 0;
      stopping, closeRequested, closing, closed, asyncOpen := false, false, false, false, true;
      model := State(table[..], bufferBytes, [], false, 0, 0, false, false, false, false, true, NoClaim, [], 0, [],
                     Book([], 0, true));
      new;
      assert Run(model, []) == model;
    }

    ghost method Track(a: Action)
      requires Reachable(model)
      modifies this`model
      ensures model == Step(old(model), a) && Reachable(model)
    {
      hide Step, Reachable;
      ReachableStep(model, a);
      model := Step(model, a);
    }

    /** Reserves the first free, retired slot unless the route is stopping, closing or failed. */
    method TryClaimWrite() returns (claim: Claim)
      requires Valid() && model.claim.NoClaim?
      modifies this`model, slots
      ensures Valid() && model == Step(old(model), ClaimWrite) && claim == model.claim
    {
      hide Reachable, Step;
      ClaimEffect(model);
      if stopping || closeRequested || failure != 0 || !asyncOpen {
        Track(ClaimWrite);
        return NoClaim;
      }
      var index := 0;
      while index < slots.Length
        invariant index <= slots.Length && Claimable(slots[..], 0) == Claimable(slots[..], index)
        invariant model == old(model) && slots[..] == old(slots[..])
      {
        if slots[index].state.Free? && slots[index].delivery.Retired? {
          var generation := slots[index].generation + 1;
          slots[index] := slots[index].(generation := generation, state := Reserved);
          Track(ClaimWrite);
          return Claimed(index, generation);
        }
        index := index + 1;
      }
      Track(ClaimWrite);
      return NoClaim;
    }

    /** Cancels every queued slot in place. */
    method CancelQueuedLocked()
      modifies slots
      ensures slots[..] == CancelQueued(old(slots[..]))
    {
      for index := 0 to slots.Length
        invariant forall i :: 0 <= i < slots.Length ==>
          slots[i] == if i < index then CancelSlot(old(slots[i])) else old(slots[i])
      {
        if slots[index].state.Queued? {
          slots[index] := slots[index].(state := Free, delivery := Cancelled);
        }
      }
    }

    method StopRoute()
      requires Valid()
      modifies this, slots
      ensures Valid() && slots == old(slots) && model == Step(old(model), Stop)
    {
      stopping := true;
      closeRequested := true;
      CancelQueuedLocked();
      Track(Stop);
    }

    /** Sums the unretired slots below the watermark. */
    method SummarizeInFlight(watermark: nat) returns (r: Summary)
      requires Valid()
      ensures r == Summarize(Entries(slots[..]), watermark)
      ensures model.book.orderly && model.book.retired <= watermark ==>
                && model.book.retired <= |model.book.outcomes|
                && r == RangeSummary(model.book.outcomes, model.book.retired,
                                     if watermark < |model.book.outcomes| then watermark else |model.book.outcomes|)
    {
      hide Reachable, Represents;
      SummaryCall(model, watermark);
      r := Summary(0, 0, 0, 0, 0, 0);
      var entries := Entries(slots[..]);
      for index := 0 to slots.Length
        invariant r == Summarize(entries[..index], watermark)
      {
        assert entries[..index + 1][..index] == entries[..index];
        var slot := slots[index];
        if !slot.delivery.Retired? && slot.sequence < watermark {
          r := r.(records := r.records + 1, bytes := r.bytes + slot.encoded);
          if slot.delivery.Delivered? {
            r := r.(deliveredRecords := r.deliveredRecords + 1, deliveredBytes := r.deliveredBytes + slot.encoded);
          } else if slot.delivery.Failed? {
            r := r.(failedRecords := r.failedRecords + 1, failedBytes := r.failedBytes + slot.encoded);
          }
        }
      }
      assert entries[..slots.Length] == entries;
    }

    /** Encodes the frame into the claimed buffer and queues it, or cancels it when the route has
        stopped taking frames. */
    method StoreRaw(claim: Claim, sequence: nat, frame: seq<byte>)
      requires Valid() && claim.Claimed? && claim == model.claim && 0 < |frame| <= model.bufferBytes
      requires model.frames != [] ==> model.frames[|model.frames| - 1].sequence < sequence
      modifies this`model, this`submitted, slots
      ensures Valid() && model == Step(Step(old(model), Encode(frame)), Submit(sequence))
      ensures model.claim.NoClaim?
      ensures model.frames == old(model.frames) + [Frame(sequence, frame, claim.index)]
    {
      hide Reachable, Step;
      StoreCall(model, sequence, frame);
      var slot := slots[claim.index].(buffer := Splice(slots[claim.index].buffer, 0, frame));
      slots[claim.index] := slot;
      var accepted := !stopping && failure == 0 && asyncOpen;
      slots[claim.index] := slot.(sequence := sequence, encoded := |frame|, written := 0, ticket := submitted,
                                  state := if accepted then Queued else Free,
                                  delivery := if accepted then InFlight else Cancelled);
      submitted := submitted + 1;
      model := Step(Step(model, Encode(frame)), Submit(sequence));
    }

    /** Gives an unused claim back. */
    method Reset(claim: Claim)
      requires Valid() && !claim.NoClaim? && claim == model.claim
      modifies this`model, slots
      ensures Valid() && model == Step(old(model), ResetClaim)
    {
      ClaimIsHeld(model);
      hide Reachable;
      if slots[claim.index].state.Reserved? && slots[claim.index].generation == claim.generation {
        slots[claim.index] := slots[claim.index].(state := Free);
      }
      Track(ResetClaim);
    }

    /** Selects the queued slot with the lowest sequence and starts it, or starts the close. */
    method PumpLocked()
      modifies this`writing, this`writingSlot, this`closing, slots
      ensures forall m: State :: old(Matches(m)) ==> Matches(Pump(m))
    {
      if writing || closing || closed {
        return;
      }
      if failure == 0 && !stopping {
        var selected := slots.Length;
        for index := 0 to slots.Length
          invariant selected == LowestQueued(slots[..], index)
        {
          if slots[index].state.Queued? &&
             (selected == slots.Length || slots[index].sequence < slots[selected].sequence) {
            selected := index;
          }
        }
        if selected < slots.Length {
          StartWriteLocked(selected);
          return;
        }
      }
      if closeRequested {
        closing := true;
      }
    }

    method StartWriteLocked(index: nat)
      requires index < slots.Length
      modifies this`writing, this`writingSlot, slots
      ensures writing && writingSlot == index
      ensures slots[..] == old(slots[..])[index := old(slots[index]).(state := Writing)]
    {
      slots[index] := slots[index].(state := Writing);
      writing := true;
      writingSlot := index;
    }

    /** The sink's fields are those of `m`. */
    ghost predicate Matches(m: State)
      reads this, slots
    {
      && m.slots == slots[..]
      && m.writing == writing && m.writingSlot == writingSlot && m.failure == failure
      && m.stopping == stopping && m.closeRequested == closeRequested
      && m.closing == closing && m.closed == closed && m.asyncOpen == asyncOpen
      && |m.frames| == submitted
    }

    /** The loop thread's wake-up. */
    method OnWake()
      requires Valid()
      modifies this, slots
      ensures Valid() && slots == old(slots) && model == Step(old(model), Wake)
    {
      hide Reachable;
      if asyncOpen {
        PumpLocked();
      }
      Track(Wake);
    }

    /** The write callback: records the failure, continues a short write, or marks the delivery. */
    method FinishWriteLocked(result: int, ghost landed: nat)
      requires Valid() && CanComplete(model, result, landed)
      modifies this, slots
      ensures Valid() && slots == old(slots) && model == Step(old(model), CompleteWrite(result, landed))
    {
      hide Reachable, Step, Pump, FailedWrite, ContinuedWrite, DeliveredWrite;
      FinishCall(model, result, landed);
      var slot := slots[writingSlot];
      var remaining := slot.encoded - slot.written;
      ghost var bytes := slot.buffer[slot.written..slot.written + landed];
      if result < 0 {
        FailWriteLocked(result, bytes);
      } else if result == 0 && remaining != 0 {
        FailWriteLocked(EIO, bytes);
      } else {
        var count := if result < remaining then result else remaining;
        AdvanceWriteLocked(count, bytes);
      }
      model := Finish(model, result, landed);
    }

    /** The frame may be partly in the file; it is reported as failed and never replayed. */
    method FailWriteLocked(error: int, ghost bytes: seq<byte>)
      requires Matches(model) && writingSlot < slots.Length
      modifies this`writing, this`writingSlot, this`closing, this`failure, slots
      ensures Matches(Pump(FailedWrite(model, bytes, error)))
    {
      hide Pump;
      writing := false;
      slots[writingSlot] := slots[writingSlot].(state := Free, delivery := Failed);
      failure := error;
      CancelQueuedLocked();
      assert Matches(FailedWrite(model, bytes, error));
      PumpLocked();
    }

    method AdvanceWriteLocked(count: nat, ghost bytes: seq<byte>)
      requires Matches(model) && writingSlot < slots.Length && count == |bytes| && model.writing
      requires slots[writingSlot].state.Writing?
      modifies this`writing, this`writingSlot, this`closing, slots
      ensures old(slots[writingSlot].written) + count < old(slots[writingSlot].encoded) ==>
        Matches(ContinuedWrite(model, bytes))
      ensures old(slots[writingSlot].written) + count >= old(slots[writingSlot].encoded) ==>
        Matches(Pump(DeliveredWrite(model, bytes)))
    {
      hide Pump;
      var slot := slots[writingSlot].(written := slots[writingSlot].written + count);
      if slot.written < slot.encoded {
        slots[writingSlot] := slot;
        StartWriteLocked(writingSlot);
        assert slots[..] == ContinuedWrite(model, bytes).slots;
      } else {
        writing := false;
        slots[writingSlot] := slot.(state := Free, delivery := Delivered);
        assert Matches(DeliveredWrite(model, bytes));
        PumpLocked();
      }
    }

    /** Hands the worker the outcome of the delivery with this sequence, once it has completed. */
    method TryRetire(sequence: nat) returns (outcome: Outcome)
      requires Valid()
      modifies this`model, slots
      ensures Valid() && model == Step(old(model), Retire(sequence))
      ensures var index := CompletedAt(old(slots[..]), sequence, 0);
              outcome == if index < slots.Length
                         then Outcome(old(slots[..])[index].delivery, old(slots[..])[index].encoded)
                         else Outcome(Retired, 0)
      ensures old(model).book.orderly && sequence == old(model).book.retired ==>
                var outcomes := old(model).book.outcomes;
                if sequence < |outcomes| && Completed(outcomes[sequence].delivery) then outcome == outcomes[sequence]
                else outcome == Outcome(Retired, 0)
    {
      hide Reachable;
      RetireCall(model, sequence);
      var index := 0;
      while index < slots.Length
        invariant index <= slots.Length &&
                  CompletedAt(slots[..], sequence, 0) == CompletedAt(slots[..], sequence, index)
        invariant slots[..] == old(slots[..]) && model == old(model)
        invariant Valid()
      {
        var slot := slots[index];
        if Completed(slot.delivery) && slot.sequence == sequence {
          slots[index] := slot.(delivery := Retired);
          Track(Retire(sequence));
          return Outcome(slot.delivery, slot.encoded);
        }
        index := index + 1;
      }
      Track(Retire(sequence));
      return Outcome(Retired, 0);
    }

    /** Drops every unretired delivery from the accounting. */
    method DiscardInFlight()
      requires Valid()
      modifies this`model, slots
      ensures Valid() && model == Step(old(model), Discard)
    {
      hide Reachable;
      for index := 0 to slots.Length
        invariant forall i :: 0 <= i < slots.Length ==>
          slots[i] == if i < index then old(slots[i]).(delivery := Retired) else old(slots[i])
        invariant model == old(model)
      {
        slots[index] := slots[index].(delivery := Retired);
      }
      Track(Discard);
      assert model.slots == slots[..];
    }
  }
}
