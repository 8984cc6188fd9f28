/** The in-memory encoded route (src/testing/in_memory_encoded_destination.cpp).

Submitted frames live in a fixed slot array. Deliveries complete in any order, by whoever holds the
delivery, and the worker retires them in admission order. Every method is one block under the route
lock. The ghost fields keep what the worker knows: the outcome of every submitted sequence, how many
of them it has retired, and the frame submitted for each.
*/
module EncodedDestination {
  import opened Bytes
  import opened DeliveryAccounting
  import opened Options

  /** Who owns a slot's frame. */
  datatype SlotState = Free | Reserved | Pending | Delivering | Ready | Held

  datatype Slot = Slot(state: SlotState, delivery: Delivery, generation: nat, sequence: nat, frame: seq<byte>)

  datatype Handle = Handle(index: nat, generation: nat, sequence: nat)

  datatype Mode = CompleteInline | Hold | FailInline

  function Carry(slot: Slot): Entry { Entry(slot.delivery, slot.sequence, |slot.frame|) }

  function Entries(slots: seq<Slot>): seq<Entry> {
    seq(|slots|, i requires 0 <= i < |slots| => Carry(slots[i]))
  }

  lemma EntriesUpdate(slots: seq<Slot>, i: nat, slot: Slot)
    requires i < |slots|
    ensures Entries(slots[i := slot]) == Entries(slots)[i := Carry(slot)]
    ensures Carry(slots[i]) == Carry(slot) ==> Entries(slots[i := slot]) == Entries(slots)
  {}

  /** A slot's frame may still be read, so its contents must be those of its sequence. */
  predicate Exposed(state: SlotState) {
    state.Pending? || state.Delivering? || state.Ready? || state.Held?
  }

  predicate SlotOk(slot: Slot, stopped: bool, frames: seq<seq<byte>>) {
    && (slot.delivery.InFlight? <==> slot.state.Pending? || slot.state.Delivering?)
    && (slot.state.Reserved? ==> slot.delivery.Retired?)
    && (stopped ==> !slot.delivery.InFlight?)
    && (Exposed(slot.state) ==> slot.sequence < |frames| && frames[slot.sequence] == slot.frame)
  }

  /** A delivery handle speaks for the slot it was issued on for as long as their generations agree. */
  predicate IssuedOk(h: Handle, slots: seq<Slot>) {
    && h.index < |slots| && h.generation <= slots[h.index].generation
    && (h.generation == slots[h.index].generation ==>
          && !slots[h.index].state.Reserved? && !slots[h.index].state.Pending?
          && (slots[h.index].state.Delivering? ==> h.sequence == slots[h.index].sequence))
  }

  predicate Matching(slot: Slot, state: SlotState, generation: nat) {
    slot.state == state && slot.generation == generation
  }

  function Submission(mode: Mode, stopped: bool): (SlotState, Delivery) {
    if stopped then (Free, Cancelled)
    else match mode
      case CompleteInline => (Ready, Delivered)
      case Hold => (Pending, InFlight)
      case FailInline => (Free, Failed)
  }

  /** Cancels every delivery in flight. */
  function AllCancelled(outcomes: seq<Outcome>): seq<Outcome> {
    seq(|outcomes|, k requires 0 <= k < |outcomes| =>
          if outcomes[k].delivery.InFlight? then outcomes[k].(delivery := Cancelled) else outcomes[k])
  }

  /** Slots that carry nothing in flight leave no sequence in flight. */
  lemma NoneInFlight(slots: seq<Slot>, outcomes: seq<Outcome>, retired: nat)
    requires Represents(Entries(slots), outcomes, retired)
    requires forall i :: 0 <= i < |slots| ==> !slots[i].delivery.InFlight?
    ensures forall k :: retired <= k < |outcomes| ==> !outcomes[k].delivery.InFlight?
  {
    forall k | retired <= k < |outcomes|
      ensures !outcomes[k].delivery.InFlight?
    {
      assert Carried(Entries(slots), k);
      var i :| 0 <= i < |Entries(slots)| && !Entries(slots)[i].delivery.Retired? && Entries(slots)[i].sequence == k;
      assert Entries(slots)[i] == Carry(slots[i]);
    }
  }

  class Destination {
    const slots: array<Slot>
    var mode: Mode
    var paused: bool
    var stopped: bool
    ghost var outcomes: seq<Outcome>
    ghost var retired: nat
    ghost var frames: seq<seq<byte>>
    ghost var issued: set<Handle>

    ghost predicate Valid()
      reads this, slots
    {
      && Represents(Entries(slots[..]), outcomes, retired)
      && |frames| == |outcomes|
      && (forall k :: 0 <= k < retired ==> !outcomes[k].delivery.InFlight?)
      && (forall i :: 0 <= i < slots.Length ==> SlotOk(slots[i], stopped, frames))
      && (forall h :: h in issued ==> IssuedOk(h, slots[..]))
    }

    constructor (capacity: nat, startPaused: bool)
      ensures Valid() && fresh(slots) && slots.Length == capacity
      ensures outcomes == [] && retired == 0 && frames == [] && issued == {} && !stopped && paused == startPaused
    {
      var table := new Slot[capacity](_ => Slot(Free, Retired, 0, 0, []));
      slots := table;
      mode, paused, stopped := CompleteInline, startPaused, false;
      outcomes, retired, frames, issued := [], 0, [], {};
    }

    /** Reserves the first slot that nobody owns and that the worker has retired. */
    method TryClaimWrite() returns (claim: Option<Handle>)
      requires Valid()
      modifies slots
      ensures Valid()
      ensures claim.None? <==> stopped || paused ||
                               forall i :: 0 <= i < slots.Length ==>
                                 old(!slots[i].state.Free? || !slots[i].delivery.Retired?)
      ensures claim.None? ==> slots[..] == old(slots[..])
      ensures claim.Some? ==>
                var c := claim.value;
                && c.index < slots.Length && Matching(slots[c.index], Reserved, c.generation)
                && slots[..] == old(slots[..])[c.index := old(slots[c.index]).(
                     state := Reserved, generation := old(slots[c.index]).generation + 1)]
                && old(slots[c.index]).delivery.Retired? && old(slots[c.index]).state.Free?
                && forall i :: 0 <= i < c.index ==> old(!slots[i].state.Free? || !slots[i].delivery.Retired?)
    {
      if stopped || paused {
        return None;
      }
      var i := 0;
      while i < slots.Length
        invariant i <= slots.Length
        invariant forall j :: 0 <= j < i ==> !slots[j].state.Free? || !slots[j].delivery.Retired?
      {
        if slots[i].state.Free? && slots[i].delivery.Retired? {
          EntriesUpdate(slots[..], i, slots[i].(generation := slots[i].generation + 1, state := Reserved));
          ghost var before := slots[..];
          slots[i] := slots[i].(generation := slots[i].generation + 1, state := Reserved);
          assert slots[..] == before[i := slots[i]];
          return Some(Handle(i, slots[i].generation, 0));
        }
        i := i + 1;
      }
      return None;
    }

    /** Gives up a claim that was never stored, or an observed record. */
    method Release(handle: Handle, expected: SlotState)
      requires Valid() && (expected.Reserved? || expected.Held?)
      modifies slots
      ensures Valid()
      ensures handle.index < slots.Length && Matching(old(slots[handle.index]), expected, handle.generation) ==>
                slots[..] == old(slots[..])[handle.index := old(slots[handle.index]).(state := Free)]
      ensures !(handle.index < slots.Length && Matching(old(slots[handle.index]), expected, handle.generation)) ==>
                slots[..] == old(slots[..])
    {
      if handle.index < slots.Length && Matching(slots[handle.index], expected, handle.generation) {
        ghost var before := slots[..];
        EntriesUpdate(before, handle.index, slots[handle.index].(state := Free));
        slots[handle.index] := slots[handle.index].(state := Free);
        assert slots[..] == before[handle.index := slots[handle.index]];
      }
    }

    /** Submits an encoded frame under the next sequence, or releases the claim if encoding failed. */
    method StoreRaw(claim: Handle, sequence: nat, encoded: Option<seq<byte>>) returns (submitted: bool)
      requires Valid() && sequence == |outcomes|
      requires claim.index < slots.Length && Matching(slots[claim.index], Reserved, claim.generation)
      modifies this`outcomes, this`frames, slots
      ensures Valid() && submitted == encoded.Some?
      ensures !submitted ==>
                && outcomes == old(outcomes) && frames == old(frames)
                && slots[..] == old(slots[..])[claim.index := old(slots[claim.index]).(state := Free)]
      ensures submitted ==>
                && slots[..] == old(slots[..])[claim.index :=
                     Slot(Submission(mode, stopped).0, Submission(mode, stopped).1, claim.generation, sequence,
                          encoded.value)]
                && frames == old(frames) + [encoded.value]
                && outcomes == old(outcomes) + [Outcome(Submission(mode, stopped).1, |encoded.value|)]
    {
      if encoded.None? {
        Release(claim, Reserved);
        return false;
      }
      var target := Submission(mode, stopped);
      var slot := Slot(target.0, target.1, claim.generation, sequence, encoded.value);
      ghost var before := slots[..];
      EntriesUpdate(before, claim.index, slot);
      SubmitRepresents(Entries(before), outcomes, retired, claim.index, Outcome(target.1, |encoded.value|));
      slots[claim.index] := slot;
      assert slots[..] == before[claim.index := slot];
      outcomes, frames := outcomes + [Outcome(target.1, |encoded.value|)], frames + [encoded.value];
      return true;
    }

    /** The slot in `state` with the lowest sequence, if there is one. */
    method FindLowestSequence(state: SlotState) returns (selected: Option<nat>)
      ensures selected.None? <==> forall i :: 0 <= i < slots.Length ==> slots[i].state != state
      ensures selected.Some? ==>
                && selected.value < slots.Length && slots[selected.value].state == state
                && forall i :: 0 <= i < slots.Length && slots[i].state == state ==>
                     slots[selected.value].sequence <= slots[i].sequence
    {
      selected := None;
      var i := 0;
      while i < slots.Length
        invariant i <= slots.Length
        invariant selected.None? <==> forall j :: 0 <= j < i ==> slots[j].state != state
        invariant selected.Some? ==>
                    && selected.value < i && slots[selected.value].state == state
                    && forall j :: 0 <= j < i && slots[j].state == state ==>
                         slots[selected.value].sequence <= slots[j].sequence
      {
        if slots[i].state == state && (selected.None? || slots[i].sequence < slots[selected.value].sequence) {
          selected := Some(i);
        }
        i := i + 1;
      }
    }

    /** Hands out the oldest pending delivery for completion. */
    method TryTakePendingDelivery() returns (delivery: Option<Handle>)
      requires Valid()
      modifies this`issued, slots
      ensures Valid() && old(issued) <= issued
      ensures delivery.None? ==> issued == old(issued) && slots[..] == old(slots[..])
      ensures delivery.None? <==> forall i :: 0 <= i < slots.Length ==> !old(slots[i]).state.Pending?
      ensures delivery.Some? ==>
                var h := delivery.value;
                && issued == old(issued) + {h} && h.sequence < |outcomes| && outcomes[h.sequence].delivery.InFlight?
                && h.index < slots.Length && Matching(slots[h.index], Delivering, h.generation)
                && slots[h.index].frame == frames[h.sequence]
                && slots[..] == old(slots[..])[h.index := old(slots[h.index]).(state := Delivering)]
                && forall i :: 0 <= i < slots.Length && old(slots[i]).state.Pending? ==>
                     h.sequence <= old(slots[i]).sequence
    {
      var selected := FindLowestSequence(Pending);
      if selected.None? {
        return None;
      }
      var i := selected.value;
      ghost var before := slots[..];
      EntriesUpdate(before, i, slots[i].(state := Delivering));
      assert Carry(slots[i]) == Entries(before)[i];
      slots[i] := slots[i].(state := Delivering);
      assert slots[..] == before[i := slots[i]];
      var h := Handle(i, slots[i].generation, slots[i].sequence);
      issued := issued + {h};
      return Some(h);
    }

    /** Completes the delivery a handle was issued for; a handle outlived by its delivery changes nothing. */
    method Finish(handle: Handle, delivered: bool) returns (completed: bool)
      requires Valid() && handle in issued
      modifies this`outcomes, slots
      ensures Valid()
      ensures completed <==> Matching(old(slots[..])[handle.index], Delivering, handle.generation)
      ensures !completed ==> outcomes == old(outcomes) && slots[..] == old(slots[..])
      ensures completed ==>
                && handle.sequence < |old(outcomes)| && old(outcomes)[handle.sequence].delivery.InFlight?
                && outcomes == old(outcomes)[handle.sequence :=
                     old(outcomes)[handle.sequence].(delivery := if delivered then Delivered else Failed)]
                && slots[..] == old(slots[..])[handle.index := old(slots[..])[handle.index].(
                     state := if delivered then Ready else Free, delivery := if delivered then Delivered else Failed)]
    {
      assert IssuedOk(handle, slots[..]);
      var i := handle.index;
      if !slots[i].state.Delivering? || slots[i].generation != handle.generation {
        return false;
      }
      var d := if delivered then Delivered else Failed;
      var slot := slots[i].(state := if delivered then Ready else Free, delivery := d);
      ghost var before := slots[..];
      assert Entries(before)[i] == Carry(slots[i]);
      EntriesUpdate(before, i, slot);
      CompleteRepresents(Entries(before), outcomes, retired, i, d);
      slots[i] := slot;
      assert slots[..] == before[i := slot];
      outcomes := outcomes[handle.sequence := outcomes[handle.sequence].(delivery := d)];
      return true;
    }

    /** Hands out the oldest delivered frame: exactly the bytes submitted under its sequence. */
    method TryTake() returns (record: Option<Handle>, bytes: seq<byte>)
      requires Valid()
      modifies slots
      ensures Valid()
      ensures record.None? <==> forall i :: 0 <= i < slots.Length ==> !old(slots[i]).state.Ready?
      ensures record.None? ==> slots[..] == old(slots[..])
      ensures record.Some? ==>
                var h := record.value;
                && h.sequence < |frames| && bytes == frames[h.sequence]
                && h.index < slots.Length && Matching(slots[h.index], Held, h.generation)
                && slots[..] == old(slots[..])[h.index := old(slots[h.index]).(state := Held)]
                && forall i :: 0 <= i < slots.Length && old(slots[i]).state.Ready? ==>
                     h.sequence <= old(slots[i]).sequence
    {
      var selected := FindLowestSequence(Ready);
      if selected.None? {
        return None, [];
      }
      var i := selected.value;
      ghost var before := slots[..];
      EntriesUpdate(before, i, slots[i].(state := Held));
      slots[i] := slots[i].(state := Held);
      assert slots[..] == before[i := slots[i]];
      return Some(Handle(i, slots[i].generation, slots[i].sequence)), slots[i].frame;
    }

    /** Retires the next sequence exactly when its delivery has completed. */
    method TryRetire(sequence: nat) returns (retirement: Option<Outcome>)
      requires Valid() && sequence == retired
      modifies this`retired, slots
      ensures Valid()
      ensures retirement.Some? <==> sequence < |outcomes| && Completed(outcomes[sequence].delivery)
      ensures retirement.Some? ==> retirement.value == outcomes[sequence] && retired == old(retired) + 1
      ensures retirement.Some? ==>
                exists i :: 0 <= i < slots.Length && old(slots[i]).sequence == sequence &&
                            slots[..] == old(slots[..])[i := old(slots[i]).(delivery := Retired)]
      ensures retirement.None? ==> retired == old(retired) && slots[..] == old(slots[..])
    {
      ghost var before := slots[..];
      CompletedSlot(Entries(before), outcomes, retired, sequence);
      var i := 0;
      while i < slots.Length
        invariant i <= slots.Length
        invariant forall j :: 0 <= j < i ==> !(Completed(slots[j].delivery) && slots[j].sequence == sequence)
      {
        if Completed(slots[i].delivery) && slots[i].sequence == sequence {
          assert Entries(before)[i] == Carry(slots[i]);
          var slot := slots[i].(delivery := Retired);
          EntriesUpdate(before, i, slot);
          RetireRepresents(Entries(before), outcomes, retired, i);
          retirement := Some(Outcome(slots[i].delivery, |slots[i].frame|));
          slots[i] := slot;
          assert slots[..] == before[i := slot];
          retired := retired + 1;
          return;
        }
        i := i + 1;
      }
      assert forall j :: 0 <= j < |Entries(before)| ==> Entries(before)[j] == Carry(slots[j]);
      return None;
    }

    /** Sums the unretired deliveries below the watermark. */
    method SummarizeInFlight(watermark: nat) returns (summary: Summary)
      requires Valid() && retired <= watermark
      ensures summary == RangeSummary(outcomes, retired, if watermark < |outcomes| then watermark else |outcomes|)
    {
      summary := Summary(0, 0, 0, 0, 0, 0);
      ghost var entries := Entries(slots[..]);
      var i := 0;
      while i < slots.Length
        invariant i <= slots.Length && summary == Summarize(entries[..i], watermark)
      {
        var slot := slots[i];
        assert entries[..i + 1][..i] == entries[..i] && entries[..i + 1][i] == Carry(slot);
        if !slot.delivery.Retired? && slot.sequence < watermark {
          summary := summary.(records := summary.records + 1, bytes := summary.bytes + |slot.frame|);
          if slot.delivery.Delivered? {
            summary := summary.(deliveredRecords := summary.deliveredRecords + 1,
                                deliveredBytes := summary.deliveredBytes + |slot.frame|);
          } else if slot.delivery.Failed? {
            summary := summary.(failedRecords := summary.failedRecords + 1,
                                failedBytes := summary.failedBytes + |slot.frame|);
          }
        }
        i := i + 1;
      }
      assert entries[..i] == entries;
      SummaryExact(entries, outcomes, retired, watermark);
    }

    /** Stops the route: every delivery in flight is cancelled, everything else keeps its outcome. */
    method Stop()
      requires Valid()
      modifies this`stopped, this`outcomes, slots
      ensures Valid() && stopped && outcomes == AllCancelled(old(outcomes))
    {
      assert retired <= |outcomes|;
      hide Represents;
      ghost var before := outcomes;
      ghost var wasStopped := stopped;
      var i := 0;
      while i < slots.Length
        invariant i <= slots.Length && stopped == wasStopped && retired <= |outcomes|
        invariant Represents(Entries(slots[..]), outcomes, retired)
        invariant |outcomes| == |before| == |frames|
        invariant forall k :: 0 <= k < |outcomes| ==>
                    outcomes[k] == before[k] ||
                    (before[k].delivery.InFlight? && outcomes[k] == before[k].(delivery := Cancelled))
        invariant forall j :: 0 <= j < i ==> SlotOk(slots[j], true, frames)
        invariant forall j :: i <= j < slots.Length ==> SlotOk(slots[j], wasStopped, frames)
        invariant forall h :: h in issued ==> IssuedOk(h, slots[..])
      {
        if slots[i].state.Pending? || slots[i].state.Delivering? {
          ghost var table := slots[..];
          var slot := slots[i].(state := Free, delivery := Cancelled);
          assert Entries(table)[i] == Carry(slots[i]);
          EntriesUpdate(table, i, slot);
          CompleteRepresents(Entries(table), outcomes, retired, i, Cancelled);
          ghost var k := slots[i].sequence;
          slots[i] := slot;
          assert slots[..] == table[i := slot];
          outcomes := outcomes[k := outcomes[k].(delivery := Cancelled)];
        }
        i := i + 1;
      }
      stopped := true;
      NoneInFlight(slots[..], outcomes, retired);
    }

    /** Forgets every unretired delivery once the worker has settled its ledger. */
    method DiscardInFlight()
      requires Valid() && stopped
      modifies this`retired, slots
      ensures Valid() && retired == |outcomes|
      ensures forall i :: 0 <= i < slots.Length ==> slots[i] == old(slots[i]).(delivery := Retired)
    {
      NoneInFlight(slots[..], outcomes, retired);
      var i := 0;
      while i < slots.Length
        invariant i <= slots.Length
        invariant forall j :: 0 <= j < i ==> slots[j] == old(slots[j]).(delivery := Retired)
        invariant forall j :: i <= j < slots.Length ==> slots[j] == old(slots[j])
      {
        slots[i] := slots[i].(delivery := Retired);
        i := i + 1;
      }
      retired := |outcomes|;
      forall h | h in issued
        ensures IssuedOk(h, slots[..])
      {
        assert IssuedOk(h, old(slots[..]));
      }
    }
  }
}
