/** Delivery accounting shared by every route (src/route/delivery_accounting.hpp).

A route keeps its unretired deliveries in a fixed slot array, in no particular order. The worker
thinks of them as one outcome per admission sequence. This module relates the two views: summing the
slots below a watermark gives exactly the sum over the sequences below it.
*/
module DeliveryAccounting {

  datatype Delivery = Retired | InFlight | Delivered | Failed | Cancelled

  /** What a slot says about the delivery it carries; a Retired slot carries none. */
  datatype Entry = Entry(delivery: Delivery, sequence: nat, bytes: nat)

  /** What became of one submitted sequence. */
  datatype Outcome = Outcome(delivery: Delivery, bytes: nat)

  datatype Summary = Summary(
    records: nat, bytes: nat, deliveredRecords: nat, deliveredBytes: nat, failedRecords: nat, failedBytes: nat)

  /** The six quantities a summary reports. */
  datatype Measure = Records | Bytes | DeliveredRecords | DeliveredBytes | FailedRecords | FailedBytes

  function Weight(delivery: Delivery, bytes: nat, m: Measure): nat {
    if delivery.Retired? then 0 else
    match m
    case Records => 1
    case Bytes => bytes
    case DeliveredRecords => if delivery.Delivered? then 1 else 0
    case DeliveredBytes => if delivery.Delivered? then bytes else 0
    case FailedRecords => if delivery.Failed? then 1 else 0
    case FailedBytes => if delivery.Failed? then bytes else 0
  }

  /** The sum over a slot array of the deliveries below the watermark. */
  function Sum(entries: seq<Entry>, watermark: nat, m: Measure): nat {
    if entries == [] then 0
    else
      var e := entries[|entries| - 1];
      Sum(entries[..|entries| - 1], watermark, m) +
      (if e.sequence < watermark then Weight(e.delivery, e.bytes, m) else 0)
  }

  /** The sum over the sequences from `lo` up to `hi`. */
  function Range(outcomes: seq<Outcome>, lo: nat, hi: nat, m: Measure): nat
    requires lo <= hi <= |outcomes|
    decreases hi
  {
    if lo == hi then 0
    else Range(outcomes, lo, hi - 1, m) + Weight(outcomes[hi - 1].delivery, outcomes[hi - 1].bytes, m)
  }

  function Summarize(entries: seq<Entry>, watermark: nat): Summary {
    Summary(Sum(entries, watermark, Records), Sum(entries, watermark, Bytes),
            Sum(entries, watermark, DeliveredRecords), Sum(entries, watermark, DeliveredBytes),
            Sum(entries, watermark, FailedRecords), Sum(entries, watermark, FailedBytes))
  }

  function RangeSummary(outcomes: seq<Outcome>, lo: nat, hi: nat): Summary
    requires lo <= hi <= |outcomes|
  {
    Summary(Range(outcomes, lo, hi, Records), Range(outcomes, lo, hi, Bytes),
            Range(outcomes, lo, hi, DeliveredRecords), Range(outcomes, lo, hi, DeliveredBytes),
            Range(outcomes, lo, hi, FailedRecords), Range(outcomes, lo, hi, FailedBytes))
  }

  predicate Completed(delivery: Delivery) {
    delivery.Delivered? || delivery.Failed?
  }

  /** The slots carry exactly the unretired sequences, each in one slot, with its outcome. */
  ghost predicate Represents(entries: seq<Entry>, outcomes: seq<Outcome>, retired: nat) {
    && retired <= |outcomes|
    && (forall i :: 0 <= i < |entries| && !entries[i].delivery.Retired? ==>
          && retired <= entries[i].sequence < |outcomes|
          && outcomes[entries[i].sequence] == Outcome(entries[i].delivery, entries[i].bytes))
    && (forall i, j :: 0 <= i < j < |entries| && !entries[i].delivery.Retired? && !entries[j].delivery.Retired? ==>
          entries[i].sequence != entries[j].sequence)
    && (forall k :: retired <= k < |outcomes| ==> Carried(entries, k))
  }

  ghost predicate Carried(entries: seq<Entry>, k: nat) {
    exists i :: 0 <= i < |entries| && !entries[i].delivery.Retired? && entries[i].sequence == k
  }

  /* --- Summing slots is summing sequences ---------------------------------------------------- */

  /** The contribution of the slots that carry sequence `k`. */
  function At(entries: seq<Entry>, k: nat, m: Measure): nat {
    if entries == [] then 0
    else
      var e := entries[|entries| - 1];
      At(entries[..|entries| - 1], k, m) + (if e.sequence == k then Weight(e.delivery, e.bytes, m) else 0)
  }

  lemma {:induction false} SumNext(entries: seq<Entry>, k: nat, m: Measure)
    ensures Sum(entries, k + 1, m) == Sum(entries, k, m) + At(entries, k, m)
    decreases |entries|
  {
    if entries != [] {
      SumNext(entries[..|entries| - 1], k, m);
    }
  }

  lemma {:induction false} AtNone(entries: seq<Entry>, k: nat, m: Measure)
    requires forall i :: 0 <= i < |entries| && entries[i].sequence == k ==> entries[i].delivery.Retired?
    ensures At(entries, k, m) == 0
    decreases |entries|
  {
    if entries != [] {
      AtNone(entries[..|entries| - 1], k, m);
    }
  }

  lemma {:induction false} AtOne(entries: seq<Entry>, k: nat, i: nat, m: Measure)
    requires i < |entries| && entries[i].sequence == k
    requires forall j :: 0 <= j < |entries| && j != i && entries[j].sequence == k ==> entries[j].delivery.Retired?
    ensures At(entries, k, m) == Weight(entries[i].delivery, entries[i].bytes, m)
    decreases |entries|
  {
    var n := |entries| - 1;
    if i == n {
      AtNone(entries[..n], k, m);
    } else {
      AtOne(entries[..n], k, i, m);
    }
  }

  lemma {:induction false} SumNone(entries: seq<Entry>, watermark: nat, m: Measure)
    requires forall i :: 0 <= i < |entries| && !entries[i].delivery.Retired? ==> watermark <= entries[i].sequence
    ensures Sum(entries, watermark, m) == 0
    decreases |entries|
  {
    if entries != [] {
      SumNone(entries[..|entries| - 1], watermark, m);
    }
  }

  lemma {:induction false} SumExact(entries: seq<Entry>, outcomes: seq<Outcome>, retired: nat, watermark: nat,
                                    m: Measure)
    requires Represents(entries, outcomes, retired) && retired <= watermark
    ensures Sum(entries, watermark, m) ==
            Range(outcomes, retired, if watermark < |outcomes| then watermark else |outcomes|, m)
    decreases watermark
  {
    if watermark == retired {
      SumNone(entries, watermark, m);
    } else {
      var k := watermark - 1;
      SumExact(entries, outcomes, retired, k, m);
      SumNext(entries, k, m);
      if k < |outcomes| {
        assert Carried(entries, k);
        var i :| 0 <= i < |entries| && !entries[i].delivery.Retired? && entries[i].sequence == k;
        AtOne(entries, k, i, m);
      } else {
        AtNone(entries, k, m);
      }
    }
  }

  /** A route's summary is the exact sum over the unretired sequences below the watermark. */
  lemma SummaryExact(entries: seq<Entry>, outcomes: seq<Outcome>, retired: nat, watermark: nat)
    requires Represents(entries, outcomes, retired) && retired <= watermark
    ensures Summarize(entries, watermark) ==
            RangeSummary(outcomes, retired, if watermark < |outcomes| then watermark else |outcomes|)
  {
    forall m: Measure
      ensures Sum(entries, watermark, m) ==
              Range(outcomes, retired, if watermark < |outcomes| then watermark else |outcomes|, m)
    {
      SumExact(entries, outcomes, retired, watermark, m);
    }
  }

  /* --- Slot updates --------------------------------------------------------------------------- */

  /** A slot that carries nothing takes the next sequence. */
  lemma SubmitRepresents(entries: seq<Entry>, outcomes: seq<Outcome>, retired: nat, i: nat, o: Outcome)
    requires Represents(entries, outcomes, retired)
    requires i < |entries| && entries[i].delivery.Retired? && !o.delivery.Retired?
    ensures Represents(entries[i := Entry(o.delivery, |outcomes|, o.bytes)], outcomes + [o], retired)
  {
    var entries' := entries[i := Entry(o.delivery, |outcomes|, o.bytes)];
    forall k | retired <= k < |outcomes| + 1
      ensures Carried(entries', k)
    {
      if k == |outcomes| {
        assert entries'[i].sequence == k;
      } else {
        assert Carried(entries, k);
        var j :| 0 <= j < |entries| && !entries[j].delivery.Retired? && entries[j].sequence == k;
        assert entries'[j] == entries[j];
      }
    }
  }

  /** A slot's delivery reaches another state. */
  lemma CompleteRepresents(entries: seq<Entry>, outcomes: seq<Outcome>, retired: nat, i: nat, d: Delivery)
    requires Represents(entries, outcomes, retired)
    requires i < |entries| && !entries[i].delivery.Retired? && !d.Retired?
    ensures entries[i].sequence < |outcomes|
    ensures outcomes[entries[i].sequence] == Outcome(entries[i].delivery, entries[i].bytes)
    ensures Represents(entries[i := entries[i].(delivery := d)],
                       outcomes[entries[i].sequence := outcomes[entries[i].sequence].(delivery := d)], retired)
  {
    var entries' := entries[i := entries[i].(delivery := d)];
    forall k | retired <= k < |outcomes|
      ensures Carried(entries', k)
    {
      assert Carried(entries, k);
      var j :| 0 <= j < |entries| && !entries[j].delivery.Retired? && entries[j].sequence == k;
      assert entries'[j].sequence == k;
    }
  }

  /** The slot of the first unretired sequence is freed. */
  lemma RetireRepresents(entries: seq<Entry>, outcomes: seq<Outcome>, retired: nat, i: nat)
    requires Represents(entries, outcomes, retired)
    requires i < |entries| && !entries[i].delivery.Retired? && entries[i].sequence == retired
    ensures retired < |outcomes|
    ensures Represents(entries[i := entries[i].(delivery := Retired)], outcomes, retired + 1)
  {
    var entries' := entries[i := entries[i].(delivery := Retired)];
    forall k | retired + 1 <= k < |outcomes|
      ensures Carried(entries', k)
    {
      assert Carried(entries, k);
      var j :| 0 <= j < |entries| && !entries[j].delivery.Retired? && entries[j].sequence == k;
      assert entries'[j] == entries[j];
    }
  }

  /** A retirement scan finds the slot of a sequence exactly when that sequence has completed. */
  lemma CompletedSlot(entries: seq<Entry>, outcomes: seq<Outcome>, retired: nat, k: nat)
    requires Represents(entries, outcomes, retired) && retired <= k
    ensures (exists i :: 0 <= i < |entries| && Completed(entries[i].delivery) && entries[i].sequence == k)
            <==> (k < |outcomes| && Completed(outcomes[k].delivery))
  {
    if k < |outcomes| {
      assert Carried(entries, k);
    }
  }

  /* --- Ranges ---------------------------------------------------------------------------------- */

  lemma {:induction false} RangeSplit(outcomes: seq<Outcome>, lo: nat, mid: nat, hi: nat, m: Measure)
    requires lo <= mid <= hi <= |outcomes|
    ensures Range(outcomes, lo, hi, m) == Range(outcomes, lo, mid, m) + Range(outcomes, mid, hi, m)
    decreases hi
  {
    if mid < hi {
      RangeSplit(outcomes, lo, mid, hi - 1, m);
    }
  }

  /** Sequences outside the range do not matter. */
  lemma {:induction false} RangeFrame(a: seq<Outcome>, b: seq<Outcome>, lo: nat, hi: nat, m: Measure)
    requires lo <= hi <= |a| && hi <= |b|
    requires forall k :: lo <= k < hi ==> a[k] == b[k]
    ensures Range(a, lo, hi, m) == Range(b, lo, hi, m)
    decreases hi
  {
    if lo < hi {
      RangeFrame(a, b, lo, hi - 1, m);
    }
  }

  /** Terminal outcomes are counted among all, and each sequence at most once. */
  lemma {:induction false} RangeBounds(outcomes: seq<Outcome>, lo: nat, hi: nat)
    requires lo <= hi <= |outcomes|
    ensures Range(outcomes, lo, hi, DeliveredRecords) + Range(outcomes, lo, hi, FailedRecords) <=
            Range(outcomes, lo, hi, Records) <= hi - lo
    ensures Range(outcomes, lo, hi, DeliveredBytes) + Range(outcomes, lo, hi, FailedBytes) <=
            Range(outcomes, lo, hi, Bytes)
    decreases hi
  {
    if lo < hi {
      RangeBounds(outcomes, lo, hi - 1);
    }
  }

  lemma {:induction false} RangeTerminal(outcomes: seq<Outcome>, lo: nat, hi: nat)
    requires lo <= hi <= |outcomes|
    requires forall k :: lo <= k < hi ==> Completed(outcomes[k].delivery)
    ensures Range(outcomes, lo, hi, DeliveredRecords) + Range(outcomes, lo, hi, FailedRecords) == hi - lo
    ensures Range(outcomes, lo, hi, DeliveredBytes) + Range(outcomes, lo, hi, FailedBytes) ==
            Range(outcomes, lo, hi, Bytes)
    decreases hi
  {
    if lo < hi {
      RangeTerminal(outcomes, lo, hi - 1);
    }
  }
}
