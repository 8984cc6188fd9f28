/** Payload credit (src/producer/credit_ledger.cpp).

A central byte budget is split into per-producer local credit, a per-producer mailbox of returned
credit, and the charges of move-only Reservations and Ownerships. Actions are single atomic accesses
with the private accesses that follow them. The calls of one producer slot are serialised by the
holder of its lane, so each slot has one `owner`; the owned records of a slot may be released by
another thread at any time, and a slot may be reconciled by another thread at any time too, access by access.
Adding to a slot's local credit or taking from it is one step.

Nothing in the ledger keeps a reconciliation from running beside a reservation of the same slot, and both use the
slot's local credit without synchronisation. Credit is conserved exactly as long as no such pair has torn it.
*/
module CreditLedger {
  import opened Accounting

  /** The call in progress on a producer slot, or the Reservation it left behind. */
  datatype Owner =
    | Idle
    | Drained(requested: nat, charge: nat)                                // mailbox drained
    | Loaded(requested: nat, charge: nat, deficit: int, available: int)   // central credit read
    | Funded(requested: nat, charge: nat)                                 // local credit covers the charge
    | Charged(requested: nat, charge: nat)                                // charge taken, logical not increased
    | Reserved(requested: nat, charge: nat)                               // live Reservation
    | Shrunk(requested: nat, retained: nat, charge: nat)                  // surplus returned, logical not reduced
    | Forgotten(charge: nat)                                              // logical reduced, charge not returned

  /** The progress of TryReconcileProducer on a slot. */
  datatype Reconciler =
    | NoReconcile
    | Tested                    // no bytes were retained
    | Merged                    // mailbox drained
    | Totaled(total: int)       // local credit read
    | Added(total: int)         // and added to the central budget

  /** A committed record's Ownership, or the part of it still to be returned. */
  datatype Share = Owned(retained: nat, charge: nat) | Releasing(charge: nat)

  datatype Slot = Slot(
    local: int, mailbox: int, logical: int, owner: Owner, shares: seq<Share>, reconciler: Reconciler)

  /** What went wrong so far: how much credit was made up, whether the local credit of a slot was ever torn, and
      whether a reconciliation ever ran beside a reservation of its slot. */
  datatype History = History(drift: int, torn: bool, overlapped: bool)

  datatype State = State(capacity: nat, central: int, slots: seq<Slot>, history: History)

  datatype SlotMove =
    | BeginReserve(requested: nat)
    | CheckLocal
    | ExchangeCentral(spurious: bool)
    | TakeLocal
    | CountLogical
    | Commit(retained: nat)
    | SettleCommit
    | AbandonReservation
    | Refund
    | Release(share: nat)
    | ReturnShare(share: nat)
    | ReconcileTest
    | ReconcileTake
    | ReconcileLoad
    | ReconcileAdd
    | ReconcileStore

  datatype Action = Action(producer: nat, move: SlotMove)

  /* --- The actions ------------------------------------------------------------------------- */

  predicate CommitFits(requested: nat, charge: nat, retained: nat) {
    var retainedCharge := AccountingCharge(retained);
    retained <= requested && retainedCharge != 0 && retainedCharge <= charge
  }

  predicate CanMove(capacity: nat, slot: Slot, m: SlotMove) {
    match m
    case BeginReserve(requested) =>
      slot.owner.Idle? && 0 < AccountingCharge(requested) <= capacity
    case CheckLocal => slot.owner.Drained?
    case ExchangeCentral(_) => slot.owner.Loaded?
    case TakeLocal => slot.owner.Funded?
    case CountLogical => slot.owner.Charged?
    case Commit(_) => slot.owner.Reserved?
    case SettleCommit => slot.owner.Shrunk? && slot.owner.retained <= slot.owner.requested
    case AbandonReservation => slot.owner.Reserved?
    case Refund => slot.owner.Forgotten?
    case Release(i) => i < |slot.shares| && slot.shares[i].Owned?
    case ReturnShare(i) => i < |slot.shares| && slot.shares[i].Releasing?
    case ReconcileTest => slot.reconciler.NoReconcile? && slot.logical == 0
    case ReconcileTake => slot.reconciler.Tested?
    case ReconcileLoad => slot.reconciler.Merged?
    case ReconcileAdd => slot.reconciler.Totaled?
    case ReconcileStore => slot.reconciler.Added?
  }

  /** The slot and the change of the central budget after a move. */
  function Moved(central: int, slot: Slot, m: SlotMove, capacity: nat): (Slot, int)
    requires CanMove(capacity, slot, m)
  {
    var o := slot.owner;
    match m
    case BeginReserve(requested) =>
      (slot.(local := slot.local + slot.mailbox, mailbox := 0,
             owner := Drained(requested, AccountingCharge(requested))), 0)
    case CheckLocal =>
      (slot.(owner := if slot.local >= o.charge then Funded(o.requested, o.charge)
                      else Loaded(o.requested, o.charge, o.charge - slot.local, central)), 0)
    case ExchangeCentral(spurious) =>
      if o.available < o.deficit then (slot.(owner := Idle), 0)
      else if spurious || central != o.available then
        (slot.(owner := Loaded(o.requested, o.charge, o.deficit, central)), 0)
      else (slot.(local := slot.local + o.deficit, owner := Funded(o.requested, o.charge)), -o.deficit)
    case TakeLocal => (slot.(local := slot.local - o.charge, owner := Charged(o.requested, o.charge)), 0)
    case CountLogical => (slot.(logical := slot.logical + o.requested, owner := Reserved(o.requested, o.charge)), 0)
    case Commit(retained) =>
      if CommitFits(o.requested, o.charge, retained) then
        (slot.(mailbox := slot.mailbox + (o.charge - AccountingCharge(retained)),
               owner := Shrunk(o.requested, retained, AccountingCharge(retained))), 0)
      else (slot.(logical := slot.logical - o.requested, owner := Forgotten(o.charge)), 0)
    case SettleCommit =>
      (slot.(logical := slot.logical - (o.requested - o.retained), owner := Idle,
             shares := slot.shares + [Owned(o.retained, o.charge)]), 0)
    case AbandonReservation =>
      (slot.(logical := slot.logical - o.requested, owner := Forgotten(o.charge)), 0)
    case Refund => (slot.(mailbox := slot.mailbox + o.charge, owner := Idle), 0)
    case Release(i) =>
      (slot.(logical := slot.logical - slot.shares[i].retained,
             shares := slot.shares[i := Releasing(slot.shares[i].charge)]), 0)
    case ReturnShare(i) =>
      (slot.(mailbox := slot.mailbox + slot.shares[i].charge,
             shares := slot.shares[..i] + slot.shares[i + 1..]), 0)
    case ReconcileTest => (slot.(reconciler := Tested), 0)
    case ReconcileTake => (slot.(local := slot.local + slot.mailbox, mailbox := 0, reconciler := Merged), 0)
    case ReconcileLoad => (slot.(reconciler := if slot.local == 0 then NoReconcile else Totaled(slot.local)), 0)
    case ReconcileAdd => (slot.(reconciler := Added(slot.reconciler.total)), slot.reconciler.total)
    case ReconcileStore => (slot.(local := 0, reconciler := NoReconcile), 0)
  }

  /** The charge is taken from credit that is no longer there, or credit is zeroed that was not what was read. */
  predicate Tears(slot: Slot, m: SlotMove, capacity: nat)
    requires CanMove(capacity, slot, m)
  {
    || (m.TakeLocal? && slot.local < slot.owner.charge)
    || (m.ReconcileStore? && slot.local != slot.reconciler.total)
  }

  /** A reconciliation is under way beside a reservation. */
  predicate Overlap(slot: Slot) {
    !slot.reconciler.NoReconcile? && !slot.owner.Idle? && !slot.owner.Forgotten?
  }

  function Recorded(h: History, slot: Slot, slot': Slot, m: SlotMove, capacity: nat): History
    requires CanMove(capacity, slot, m)
  {
    History(h.drift + (if m.ReconcileStore? then slot.reconciler.total - slot.local else 0),
            h.torn || Tears(slot, m, capacity), h.overlapped || Overlap(slot'))
  }

  function Step(s: State, a: Action): State {
    if a.producer >= |s.slots| || !CanMove(s.capacity, s.slots[a.producer], a.move) then s else
    var (slot, change) := Moved(s.central, s.slots[a.producer], a.move, s.capacity);
    s.(slots := s.slots[a.producer := slot], central := s.central + change,
       history := Recorded(s.history, s.slots[a.producer], slot, a.move, s.capacity))
  }

  function Run(s: State, schedule: seq<Action>): State {
    if schedule == [] then s
    else Step(Run(s, schedule[..|schedule| - 1]), schedule[|schedule| - 1])
  }

  /* --- What a slot holds -------------------------------------------------------------------- */

  /** Credit held by the call in progress or the live Reservation. */
  function OwnerCharge(o: Owner): nat {
    match o
    case Charged(_, charge) => charge
    case Reserved(_, charge) => charge
    case Shrunk(_, _, charge) => charge
    case Forgotten(charge) => charge
    case _ => 0
  }

  /** Bytes the owner still counts as logically retained. */
  function OwnerLogical(o: Owner): nat {
    match o
    case Reserved(requested, _) => requested
    case Shrunk(requested, _, _) => requested
    case _ => 0
  }

  function ShareLogical(share: Share): nat {
    if share.Owned? then share.retained else 0
  }

  function ShareCharges(shares: seq<Share>): nat {
    if shares == [] then 0 else shares[0].charge + ShareCharges(shares[1..])
  }

  function ShareLogicals(shares: seq<Share>): nat {
    if shares == [] then 0 else ShareLogical(shares[0]) + ShareLogicals(shares[1..])
  }

  /** What a reconciliation has given to the central budget and not yet taken from the slot. */
  function Given(r: Reconciler): int {
    if r.Added? then r.total else 0
  }

  /** All credit of a slot: local, returned, reserved and owned. */
  function Held(slot: Slot): int {
    slot.local - Given(slot.reconciler) + slot.mailbox + OwnerCharge(slot.owner) + ShareCharges(slot.shares)
  }

  function TotalHeld(slots: seq<Slot>): int {
    if slots == [] then 0 else Held(slots[0]) + TotalHeld(slots[1..])
  }

  function TotalLogical(slots: seq<Slot>): int {
    if slots == [] then 0 else slots[0].logical + TotalLogical(slots[1..])
  }

  /* --- The invariant ------------------------------------------------------------------------ */

  /** What the atomic counters keep, whatever becomes of the local credit. */
  ghost predicate SlotOk(slot: Slot) {
    && slot.mailbox >= 0
    && (forall i :: 0 <= i < |slot.shares| && slot.shares[i].Owned? ==>
          slot.shares[i].retained <= slot.shares[i].charge)
    && slot.logical == OwnerLogical(slot.owner) + ShareLogicals(slot.shares)
    && OwnerOk(slot.owner)
  }

  ghost predicate OwnerOk(o: Owner) {
    match o
    case Idle => true
    case Loaded(requested, charge, deficit, _) => requested <= charge && deficit > 0
    case Shrunk(requested, retained, charge) => retained <= requested && retained <= charge
    case Forgotten(_) => true
    case _ => o.requested <= o.charge
  }

  /** What holds of a slot whose ledger was never torn. */
  ghost predicate SlotWhole(slot: Slot) {
    && slot.local >= 0
    && (slot.reconciler.Totaled? || slot.reconciler.Added? ==> slot.reconciler.total >= 0)
  }

  /** What holds of a slot as long as reconciliations and reservations keep apart. */
  ghost predicate SlotApart(slot: Slot) {
    && !Overlap(slot)
    && (slot.reconciler.Totaled? || slot.reconciler.Added? ==> slot.local == slot.reconciler.total)
    && OwnerApart(slot.owner, slot.local, slot.mailbox)
  }

  ghost predicate OwnerApart(o: Owner, local: int, mailbox: int) {
    match o
    case Loaded(_, charge, deficit, _) => local + deficit == charge
    case Funded(_, charge) => charge <= local
    case Shrunk(requested, _, charge) => requested <= charge + mailbox
    case _ => true
  }

  ghost predicate Inv(s: State) {
    && s.central + TotalHeld(s.slots) == s.capacity + s.history.drift
    && (forall p :: 0 <= p < |s.slots| ==> SlotOk(s.slots[p]))
    && (!s.history.torn ==>
          s.history.drift == 0 && s.central >= 0 && forall p :: 0 <= p < |s.slots| ==> SlotWhole(s.slots[p]))
    && (!s.history.overlapped ==> !s.history.torn && forall p :: 0 <= p < |s.slots| ==> SlotApart(s.slots[p]))
  }

  ghost predicate Start(s: State) {
    && s.central == s.capacity && s.history == History(0, false, false)
    && (forall p :: 0 <= p < |s.slots| ==> Untouched(s.slots[p]))
  }

  predicate Untouched(slot: Slot) {
    && slot.local == slot.mailbox == slot.logical == |slot.shares| == 0
    && slot.owner.Idle? && slot.reconciler.NoReconcile?
  }

  lemma {:induction false} StartHoldsNothing(slots: seq<Slot>)
    requires forall p :: 0 <= p < |slots| ==> Untouched(slots[p])
    ensures TotalHeld(slots) == 0
  {
    if slots != [] {
      StartHoldsNothing(slots[1..]);
    }
  }

  lemma UntouchedSlot(slot: Slot)
    requires Untouched(slot)
    ensures SlotOk(slot) && SlotWhole(slot) && SlotApart(slot)
  {}

  lemma StartInv(s: State)
    requires Start(s)
    ensures Inv(s)
  {
    hide SlotOk, SlotWhole, SlotApart, TotalHeld, Untouched;
    StartHoldsNothing(s.slots);
    forall p | 0 <= p < |s.slots|
      ensures SlotOk(s.slots[p]) && SlotWhole(s.slots[p]) && SlotApart(s.slots[p])
    {
      UntouchedSlot(s.slots[p]);
    }
  }

  /* --- Sums --------------------------------------------------------------------------------- */

  lemma {:induction false} SharesSplit(a: seq<Share>, b: seq<Share>)
    ensures ShareCharges(a + b) == ShareCharges(a) + ShareCharges(b)
    ensures ShareLogicals(a + b) == ShareLogicals(a) + ShareLogicals(b)
  {
    if a == [] {
      assert a + b == b;
    } else {
      assert (a + b)[1..] == a[1..] + b;
      SharesSplit(a[1..], b);
    }
  }

  /** The sums over the shares around share `i`. */
  lemma ShareAt(shares: seq<Share>, i: nat)
    requires i < |shares|
    ensures ShareCharges(shares) == ShareCharges(shares[..i]) + shares[i].charge + ShareCharges(shares[i + 1..])
    ensures ShareLogicals(shares)
         == ShareLogicals(shares[..i]) + ShareLogical(shares[i]) + ShareLogicals(shares[i + 1..])
  {
    assert shares == shares[..i] + ([shares[i]] + shares[i + 1..]);
    SharesSplit(shares[..i], [shares[i]] + shares[i + 1..]);
    assert ([shares[i]] + shares[i + 1..])[1..] == shares[i + 1..];
  }

  lemma {:induction false} TotalHeldUpdate(slots: seq<Slot>, p: nat, slot: Slot)
    requires p < |slots|
    ensures TotalHeld(slots[p := slot]) == TotalHeld(slots) - Held(slots[p]) + Held(slot)
  {
    if p == 0 {
      assert slots[p := slot][1..] == slots[1..];
    } else {
      assert slots[p := slot][1..] == slots[1..][p - 1 := slot];
      TotalHeldUpdate(slots[1..], p - 1, slot);
    }
  }

  /** Logical bytes never exceed the credit a slot holds, as long as reconciliations and reservations keep apart. */
  lemma SlotLogicalWithinHeld(slot: Slot)
    requires SlotOk(slot) && SlotWhole(slot) && SlotApart(slot)
    ensures 0 <= slot.logical <= Held(slot)
  {
    SharesCovered(slot.shares);
  }

  lemma {:induction false} SharesCovered(shares: seq<Share>)
    requires forall i :: 0 <= i < |shares| && shares[i].Owned? ==> shares[i].retained <= shares[i].charge
    ensures ShareLogicals(shares) <= ShareCharges(shares)
  {
    if shares != [] {
      SharesCovered(shares[1..]);
    }
  }

  lemma {:induction false} TotalLogicalWithinHeld(slots: seq<Slot>)
    requires forall p :: 0 <= p < |slots| ==> SlotOk(slots[p]) && SlotWhole(slots[p]) && SlotApart(slots[p])
    ensures 0 <= TotalLogical(slots) <= TotalHeld(slots)
  {
    if slots != [] {
      SlotLogicalWithinHeld(slots[0]);
      TotalLogicalWithinHeld(slots[1..]);
    }
  }

  /* --- Every action keeps the invariant ------------------------------------------------------- */

  predicate ShareKind(m: SlotMove) { m.Release? || m.ReturnShare? || m.SettleCommit? }

  lemma ShareMove(slot: Slot, m: SlotMove, capacity: nat, central: int)
    requires SlotOk(slot) && CanMove(capacity, slot, m) && ShareKind(m)
    ensures var (slot', change) := Moved(central, slot, m, capacity);
            && change == 0 && SlotOk(slot') && Held(slot') == Held(slot)
            && (SlotWhole(slot) ==> SlotWhole(slot'))
            && (SlotApart(slot) ==> SlotApart(slot'))
  {
    var slot' := Moved(central, slot, m, capacity).0;
    if m.SettleCommit? {
      var share := Owned(slot.owner.retained, slot.owner.charge);
      SharesSplit(slot.shares, [share]);
      assert slot'.shares == slot.shares + [share];
    } else {
      var i := m.share;
      ShareAt(slot.shares, i);
      if m.Release? {
        ShareAt(slot'.shares, i);
        assert slot'.shares[..i] == slot.shares[..i] && slot'.shares[i + 1..] == slot.shares[i + 1..];
      } else {
        SharesSplit(slot.shares[..i], slot.shares[i + 1..]);
      }
    }
  }

  predicate ReconcileKind(m: SlotMove) {
    m.ReconcileTest? || m.ReconcileTake? || m.ReconcileLoad? || m.ReconcileAdd? || m.ReconcileStore?
  }

  lemma ReconcileMove(slot: Slot, m: SlotMove, capacity: nat, central: int)
    requires SlotOk(slot) && CanMove(capacity, slot, m) && ReconcileKind(m)
    ensures var (slot', change) := Moved(central, slot, m, capacity);
            && SlotOk(slot')
            && Held(slot') + change ==
               Held(slot) + (if m.ReconcileStore? then slot.reconciler.total - slot.local else 0)
            && (SlotWhole(slot) && central >= 0 && !Tears(slot, m, capacity) ==>
                  SlotWhole(slot') && central + change >= 0)
            && (SlotApart(slot) && SlotWhole(slot) && !Overlap(slot') ==> SlotApart(slot') && !Tears(slot, m, capacity))
  {
    hide ShareLogicals, ShareCharges;
  }

  lemma OwnerMove(slot: Slot, m: SlotMove, capacity: nat, central: int)
    requires SlotOk(slot) && CanMove(capacity, slot, m) && !ShareKind(m) && !ReconcileKind(m)
    ensures var (slot', change) := Moved(central, slot, m, capacity);
            && SlotOk(slot') && Held(slot') + change == Held(slot)
            && (SlotWhole(slot) && central >= 0 && !Tears(slot, m, capacity) ==>
                  SlotWhole(slot') && central + change >= 0)
            && (SlotApart(slot) && SlotWhole(slot) && !Overlap(slot') ==> SlotApart(slot') && !Tears(slot, m, capacity))
  {
    hide ShareLogicals, ShareCharges;
  }

  lemma InvStep(s: State, a: Action)
    requires Inv(s)
    ensures Inv(Step(s, a))
  {
    if a.producer < |s.slots| && CanMove(s.capacity, s.slots[a.producer], a.move) {
      hide SlotOk, SlotWhole, SlotApart, Moved, CanMove, TotalHeld, Held;
      var p, m := a.producer, a.move;
      if ShareKind(m) {
        ShareMove(s.slots[p], m, s.capacity, s.central);
        ShareQuiet(s.slots[p], m, s.capacity, s.central);
      } else if ReconcileKind(m) {
        ReconcileMove(s.slots[p], m, s.capacity, s.central);
      } else {
        OwnerMove(s.slots[p], m, s.capacity, s.central);
      }
      TotalHeldUpdate(s.slots, p, Moved(s.central, s.slots[p], m, s.capacity).0);
    }
  }

  /** Shares come and go without touching the local credit. */
  lemma ShareQuiet(slot: Slot, m: SlotMove, capacity: nat, central: int)
    requires CanMove(capacity, slot, m) && ShareKind(m)
    ensures !Tears(slot, m, capacity)
    ensures SlotApart(slot) ==> !Overlap(Moved(central, slot, m, capacity).0)
  {}

  lemma {:induction false} InvRun(s: State, schedule: seq<Action>)
    requires Inv(s)
    ensures Inv(Run(s, schedule)) && Run(s, schedule).capacity == s.capacity
    decreases |schedule|
  {
    hide Inv;
    if schedule != [] {
      InvRun(s, schedule[..|schedule| - 1]);
      InvStep(Run(s, schedule[..|schedule| - 1]), schedule[|schedule| - 1]);
    }
  }

  /* --- Conservation --------------------------------------------------------------------------- */

  /** Central credit and everything held make up the capacity, and no counter has gone below zero. */
  ghost predicate Conserves(s: State) {
    && s.central + TotalHeld(s.slots) == s.capacity && s.central >= 0
    && (forall p :: 0 <= p < |s.slots| ==> s.slots[p].local >= 0 && s.slots[p].mailbox >= 0)
  }

  /** Logical bytes are covered by credit, slot by slot and in all. */
  ghost predicate Covered(s: State) {
    && (forall p :: 0 <= p < |s.slots| ==> 0 <= s.slots[p].logical <= Held(s.slots[p]))
    && 0 <= TotalLogical(s.slots) <= s.capacity - s.central <= s.capacity
  }

  lemma WholeConserves(s: State)
    requires Inv(s) && !s.history.torn
    ensures Conserves(s)
  {
    hide TotalHeld, Held;
    forall p | 0 <= p < |s.slots|
      ensures s.slots[p].local >= 0 && s.slots[p].mailbox >= 0
    {
      assert SlotWhole(s.slots[p]) && SlotOk(s.slots[p]);
    }
  }

  lemma ApartCovered(s: State)
    requires Inv(s) && !s.history.overlapped
    ensures Conserves(s) && Covered(s)
  {
    hide SlotOk, SlotWhole, SlotApart;
    WholeConserves(s);
    TotalLogicalWithinHeld(s.slots);
    forall p | 0 <= p < |s.slots|
      ensures 0 <= s.slots[p].logical <= Held(s.slots[p])
    {
      SlotLogicalWithinHeld(s.slots[p]);
    }
  }

  /** As long as no reconciliation has run beside a reservation of its slot, central credit plus everything held is
      the capacity, no counter is negative, and logically retained bytes stay within physically retained bytes. */
  lemma CreditConserved(s: State, schedule: seq<Action>)
    requires Start(s) && !Run(s, schedule).history.overlapped
    ensures Conserves(Run(s, schedule)) && Covered(Run(s, schedule)) && Run(s, schedule).capacity == s.capacity
  {
    hide Inv, Start, Conserves, Covered;
    StartInv(s);
    InvRun(s, schedule);
    ApartCovered(Run(s, schedule));
  }

  /** The first tear shows at once: credit has been made up or lost, or a slot's credit has gone below zero. */
  lemma TearBreaks(s: State, a: Action)
    requires Inv(s) && !s.history.torn && Step(s, a).history.torn
    ensures !Conserves(Step(s, a))
  {
    hide SlotOk, SlotApart, TotalHeld, Held;
    InvStep(s, a);
    var p := a.producer;
    var s' := Step(s, a);
    if a.move.TakeLocal? {
      assert s'.slots[p].local < 0;
    } else {
      assert s'.history.drift != 0;
    }
  }

  ghost predicate AlwaysConserves(s: State, schedule: seq<Action>) {
    forall k :: 0 <= k <= |schedule| ==> Conserves(Run(s, schedule[..k]))
  }

  lemma {:induction false} TornLater(s: State, schedule: seq<Action>, k: nat)
    requires k <= |schedule| && Run(s, schedule[..k]).history.torn
    ensures Run(s, schedule).history.torn
    decreases |schedule|
  {
    if k < |schedule| {
      var before := schedule[..|schedule| - 1];
      assert before[..k] == schedule[..k];
      TornLater(s, before, k);
    } else {
      assert schedule[..k] == schedule;
    }
  }

  /** Credit is conserved in every state of a run exactly when its local credit was never torn: no charge taken that a
      reconciliation had zeroed, no credit zeroed that was not the credit read. */
  lemma {:induction false} ConservedIffUntorn(s: State, schedule: seq<Action>)
    requires Start(s)
    ensures AlwaysConserves(s, schedule) <==> !Run(s, schedule).history.torn
    decreases |schedule|
  {
    hide Inv, Start, Conserves, Step;
    StartInv(s);
    if !Run(s, schedule).history.torn {
      forall k | 0 <= k <= |schedule|
        ensures Conserves(Run(s, schedule[..k]))
      {
        if Run(s, schedule[..k]).history.torn {
          TornLater(s, schedule, k);
        }
        InvRun(s, schedule[..k]);
        WholeConserves(Run(s, schedule[..k]));
      }
    } else {
      TornSomewhere(s, schedule);
    }
  }

  lemma {:induction false} TornSomewhere(s: State, schedule: seq<Action>)
    requires Start(s) && Run(s, schedule).history.torn
    ensures !AlwaysConserves(s, schedule)
    decreases |schedule|
  {
    hide Inv, Conserves, Step;
    var n := |schedule| - 1;
    assert schedule != [];
    var before := schedule[..n];
    if Run(s, before).history.torn {
      TornSomewhere(s, before);
      var k :| 0 <= k <= |before| && !Conserves(Run(s, before[..k]));
      assert schedule[..k] == before[..k];
    } else {
      StartInv(s);
      InvRun(s, before);
      TearBreaks(Run(s, before), schedule[n]);
      assert schedule[..|schedule|] == schedule;
    }
  }

  /** When every share is returned and no call is in progress, reconciling every slot gives the whole
      capacity back. */
  lemma {:induction false} AllReconciled(s: State)
    requires Inv(s) && !s.history.torn
    requires forall p :: 0 <= p < |s.slots| ==>
      var slot := s.slots[p];
      slot.owner.Idle? && slot.shares == [] && slot.local == 0 && slot.mailbox == 0 && slot.reconciler.NoReconcile?
    ensures s.central == s.capacity
  {
    NothingHeld(s.slots);
  }

  lemma {:induction false} NothingHeld(slots: seq<Slot>)
    requires forall p :: 0 <= p < |slots| ==>
      && slots[p].owner.Idle? && slots[p].shares == [] && slots[p].local == 0 && slots[p].mailbox == 0
      && slots[p].reconciler.NoReconcile?
    ensures TotalHeld(slots) == 0
  {
    if slots != [] {
      NothingHeld(slots[1..]);
    }
  }

  /* --- Credit can be doubled -------------------------------------------------------------------- */

  /** A ledger with one slot. */
  function One(capacity: nat, central: int, local: int, logical: int, o: Owner, r: Reconciler, h: History): State {
    State(capacity, central, [Slot(local, 0, logical, o, [], r)], h)
  }

  ghost predicate Reaches(s: State, t: State) {
    exists schedule: seq<Action> :: Run(s, schedule) == t
  }

  lemma ReachesStart(s: State)
    ensures Reaches(s, s)
  {
    assert Run(s, []) == s;
  }

  lemma ReachesStep(s: State, t: State, m: SlotMove, u: State)
    requires Reaches(s, t) && Step(t, Action(0, m)) == u
    ensures Reaches(s, u)
  {
    hide Step;
    var schedule: seq<Action> :| Run(s, schedule) == t;
    assert (schedule + [Action(0, m)])[..|schedule|] == schedule;
    assert Run(s, schedule + [Action(0, m)]) == u;
  }

  /** A run over one slot: a reconciliation finds the slot empty, a reservation of everything is funded, the
      reconciliation gives the same credit to the central budget, and the reservation takes its charge too. */
  function DoublingMove(n: nat, k: nat): SlotMove {
    match k
    case 0 => ReconcileTest
    case 1 => ReconcileTake
    case 2 => BeginReserve(n)
    case 3 => CheckLocal
    case 4 => ExchangeCentral(false)
    case 5 => ReconcileLoad
    case 6 => ReconcileAdd
    case 7 => TakeLocal
    case 8 => CountLogical
    case _ => ReconcileStore
  }

  function DoublingAt(n: nat, c: nat, k: nat): State {
    var calm, beside := History(0, false, false), History(0, false, true);
    match k
    case 0 => One(c, c, 0, 0, Idle, NoReconcile, calm)
    case 1 => One(c, c, 0, 0, Idle, Tested, calm)
    case 2 => One(c, c, 0, 0, Idle, Merged, calm)
    case 3 => One(c, c, 0, 0, Drained(n, c), Merged, beside)
    case 4 => One(c, c, 0, 0, Loaded(n, c, c, c), Merged, beside)
    case 5 => One(c, 0, c, 0, Funded(n, c), Merged, beside)
    case 6 => One(c, 0, c, 0, Funded(n, c), Totaled(c), beside)
    case 7 => One(c, c, c, 0, Funded(n, c), Added(c), beside)
    case 8 => One(c, c, 0, 0, Charged(n, c), Added(c), beside)
    case 9 => One(c, c, 0, n, Reserved(n, c), Added(c), beside)
    case _ => One(c, c, 0, n, Reserved(n, c), NoReconcile, History(c, true, true))
  }

  lemma DoublingStep(n: nat, c: nat, k: nat)
    requires 0 < c == AccountingCharge(n) && k < 10
    ensures Step(DoublingAt(n, c, k), Action(0, DoublingMove(n, k))) == DoublingAt(n, c, k + 1)
  {
    hide AccountingCharge;
  }

  lemma {:induction false} DoublingReaches(n: nat, c: nat, k: nat)
    requires 0 < c == AccountingCharge(n) && k <= 10
    ensures Reaches(DoublingAt(n, c, 0), DoublingAt(n, c, k))
  {
    hide Reaches, DoublingAt, AccountingCharge, Step;
    if k == 0 {
      ReachesStart(DoublingAt(n, c, 0));
    } else {
      DoublingReaches(n, c, k - 1);
      DoublingStep(n, c, k - 1);
      ReachesStep(DoublingAt(n, c, 0), DoublingAt(n, c, k - 1), DoublingMove(n, k - 1), DoublingAt(n, c, k));
    }
  }

  /** At the end of that run the central budget is whole and a reservation of all of it is out. */
  lemma CreditDoubled(n: nat, c: nat)
    requires 0 < c == AccountingCharge(n)
    ensures var s, t := DoublingAt(n, c, 0), DoublingAt(n, c, 10);
            && Start(s) && Reaches(s, t)
            && t.central == t.capacity == c && t.slots[0].owner == Reserved(n, c) && !Conserves(t)
  {
    hide Reaches, AccountingCharge;
    DoublingReaches(n, c, 10);
    assert DoublingAt(n, c, 10).slots[0].shares == [];
    assert TotalHeld(DoublingAt(n, c, 10).slots) == c;
  }

  /* --- Snapshots ----------------------------------------------------------------------------- */

  datatype Snapshot = Snapshot(capacity: nat, central: nat, logical: nat, physical: nat, consistent: bool)

  /** Clamps values that may have been sampled at different times. */
  function MakeSnapshot(capacity: nat, sampledCentral: nat, sampledLogical: nat): (r: Snapshot)
    ensures r.logical <= r.physical == capacity - r.central <= capacity
  {
    var central := if sampledCentral < capacity then sampledCentral else capacity;
    var physical := capacity - central;
    Snapshot(capacity, central, if sampledLogical < physical then sampledLogical else physical, physical,
             sampledCentral <= capacity && sampledLogical <= physical)
  }

  /** A snapshot of one state is consistent and reports the state's own totals. */
  lemma SnapshotExact(s: State)
    requires Inv(s) && !s.history.overlapped
    ensures 0 <= s.central <= s.capacity && 0 <= TotalLogical(s.slots) <= TotalHeld(s.slots)
    ensures MakeSnapshot(s.capacity, s.central, TotalLogical(s.slots)) ==
            Snapshot(s.capacity, s.central, TotalLogical(s.slots), TotalHeld(s.slots), true)
  {
    ApartCovered(s);
  }

  /** The sum of the slots' logical bytes, slot `i` read after `times[i]` steps of the run. */
  function Sampled(s: State, schedule: seq<Action>, times: seq<nat>, n: nat): int
    requires n <= |times| && n <= |s.slots| && forall i :: 0 <= i < |times| ==> times[i] <= |schedule|
  {
    if n == 0 then 0
    else
      var t := Run(s, schedule[..times[n - 1]]);
      Sampled(s, schedule, times, n - 1) + (if n - 1 < |t.slots| then t.slots[n - 1].logical else 0)
  }

  /** The counters are read one by one, the central budget last. Whatever happens in between, the physical bytes are
      exactly those held when the central budget was read, the logical bytes never exceed them, and a sample in which
      no counter moved is exact. */
  lemma SampledSnapshot(s: State, schedule: seq<Action>, times: seq<nat>)
    requires Start(s) && !Run(s, schedule).history.overlapped && |times| == |s.slots| + 1
    requires forall i :: 0 <= i < |times| ==> times[i] <= |schedule|
    ensures SampleHolds(s.capacity, Run(s, schedule[..times[|s.slots|]]), Sampled(s, schedule, times, |s.slots|))
    ensures (forall i :: 0 <= i < |s.slots| ==> SameLogical(s, schedule, times, i)) ==>
              Sampled(s, schedule, times, |s.slots|) == TotalLogical(Run(s, schedule[..times[|s.slots|]]).slots)
  {
    hide Inv, Start, Run, MakeSnapshot, TotalHeld, TotalLogical, SameLogical, Sampled;
    var n := |s.slots|;
    var t := Run(s, schedule[..times[n]]);
    ApartEarlier(s, schedule, times[n]);
    SampledNotNegative(s, schedule, times, n);
    SampleClamped(s.capacity, t, Sampled(s, schedule, times, n));
    if forall i :: 0 <= i < n ==> SameLogical(s, schedule, times, i) {
      SampledTotal(s, schedule, times, n);
      RunSlots(s, schedule[..times[n]]);
      assert t.slots[..n] == t.slots;
    }
  }

  /** What a snapshot of the sampled logical bytes and of the central budget of `t` says about `t`. */
  predicate SampleHolds(capacity: nat, t: State, sum: int) {
    && sum >= 0 && 0 <= t.central <= capacity
    && var r := MakeSnapshot(capacity, t.central, sum);
       && r.central == t.central && r.physical == TotalHeld(t.slots)
       && r.logical == (if sum < r.physical then sum else r.physical)
       && (r.consistent <==> sum <= r.physical)
  }

  /** Slot `i` has the same logical bytes when it is read and when the central budget is. */
  predicate SameLogical(s: State, schedule: seq<Action>, times: seq<nat>, i: nat)
    requires |times| == |s.slots| + 1 && forall j :: 0 <= j < |times| ==> times[j] <= |schedule|
  {
    var t, u := Run(s, schedule[..times[|s.slots|]]), Run(s, schedule[..times[if i < |times| then i else 0]]);
    i < |t.slots| && i < |u.slots| && t.slots[i].logical == u.slots[i].logical
  }

  lemma SampleClamped(capacity: nat, t: State, sum: nat)
    requires Inv(t) && !t.history.overlapped && t.capacity == capacity
    ensures SampleHolds(capacity, t, sum)
  {
    hide Inv, TotalHeld;
    SnapshotParts(t);
  }

  lemma {:induction false} RunSlots(s: State, schedule: seq<Action>)
    ensures |Run(s, schedule).slots| == |s.slots|
  {
    if schedule != [] {
      RunSlots(s, schedule[..|schedule| - 1]);
    }
  }

  lemma {:induction false} ApartEarlier(s: State, schedule: seq<Action>, k: nat)
    requires Start(s) && !Run(s, schedule).history.overlapped && k <= |schedule|
    ensures var t := Run(s, schedule[..k]); Inv(t) && !t.history.overlapped && t.capacity == s.capacity
    decreases |schedule|
  {
    hide Inv;
    if k == |schedule| {
      assert schedule[..k] == schedule;
      StartInv(s);
      InvRun(s, schedule);
    } else {
      var before := schedule[..|schedule| - 1];
      assert before[..k] == schedule[..k];
      ApartEarlier(s, before, k);
    }
  }

  lemma SnapshotParts(s: State)
    requires Inv(s) && !s.history.overlapped
    ensures 0 <= s.central <= s.capacity && TotalHeld(s.slots) == s.capacity - s.central
  {
    ApartCovered(s);
  }

  lemma {:induction false} SampledNotNegative(s: State, schedule: seq<Action>, times: seq<nat>, n: nat)
    requires Start(s) && n <= |times| && n <= |s.slots| && forall i :: 0 <= i < |times| ==> times[i] <= |schedule|
    ensures Sampled(s, schedule, times, n) >= 0
  {
    hide Inv, Start, Run;
    if n > 0 {
      SampledNotNegative(s, schedule, times, n - 1);
      var t := Run(s, schedule[..times[n - 1]]);
      StartInv(s);
      InvRun(s, schedule[..times[n - 1]]);
      if n - 1 < |t.slots| {
        LogicalNotNegative(t, n - 1);
      }
    }
  }

  lemma LogicalNotNegative(s: State, p: nat)
    requires Inv(s) && p < |s.slots|
    ensures s.slots[p].logical >= 0 && SlotOk(s.slots[p])
  {
    assert SlotOk(s.slots[p]);
  }

  lemma TotalLogicalNotNegative(s: State)
    requires Inv(s)
    ensures TotalLogical(s.slots) >= 0
  {
    hide SlotOk, TotalLogical;
    forall p | 0 <= p < |s.slots|
      ensures s.slots[p].logical >= 0
    {
      LogicalNotNegative(s, p);
    }
    LogicalSumNotNegative(s.slots);
  }

  lemma {:induction false} LogicalSumNotNegative(slots: seq<Slot>)
    requires forall p :: 0 <= p < |slots| ==> slots[p].logical >= 0
    ensures TotalLogical(slots) >= 0
  {
    if slots != [] {
      LogicalSumNotNegative(slots[1..]);
    }
  }

  lemma {:induction false} SampledTotal(s: State, schedule: seq<Action>, times: seq<nat>, n: nat)
    requires |times| == |s.slots| + 1 && n <= |s.slots| && forall i :: 0 <= i < |times| ==> times[i] <= |schedule|
    requires forall i :: 0 <= i < |s.slots| ==> SameLogical(s, schedule, times, i)
    ensures var t := Run(s, schedule[..times[|s.slots|]]);
            n <= |t.slots| && Sampled(s, schedule, times, n) == TotalLogical(t.slots[..n])
  {
    hide Run;
    var t := Run(s, schedule[..times[|s.slots|]]);
    RunSlots(s, schedule[..times[|s.slots|]]);
    if n > 0 {
      SampledTotal(s, schedule, times, n - 1);
      assert SameLogical(s, schedule, times, n - 1);
      LogicalPrefix(t.slots, n - 1);
    }
  }

  /** States that some schedule reaches. */
  ghost predicate Reachable(s: State) {
    exists origin: State, schedule: seq<Action> :: Start(origin) && Run(origin, schedule) == s
  }

  lemma ReachableInv(s: State)
    requires Reachable(s)
    ensures Inv(s)
  {
    hide Inv, Step;
    var origin: State, schedule :| Start(origin) && Run(origin, schedule) == s;
    StartInv(origin);
    InvRun(origin, schedule);
  }

  lemma ReachableStep(s: State, a: Action)
    requires Reachable(s)
    ensures Reachable(Step(s, a))
  {
    hide Step, Start;
    var origin: State, schedule :| Start(origin) && Run(origin, schedule) == s;
    assert (schedule + [a])[..|schedule|] == schedule;
    assert Run(origin, schedule + [a]) == Step(s, a);
  }

  /** What the callers of a live reservation or share may subtract. */
  lemma ReachableAmounts(s: State, p: nat)
    requires Reachable(s) && p < |s.slots|
    ensures s.slots[p].logical >= OwnerLogical(s.slots[p].owner)
    ensures forall i :: 0 <= i < |s.slots[p].shares| ==> s.slots[p].logical >= ShareLogical(s.slots[p].shares[i])
  {
    hide Inv;
    ReachableInv(s);
    LogicalNotNegative(s, p);
    forall i | 0 <= i < |s.slots[p].shares|
      ensures s.slots[p].logical >= ShareLogical(s.slots[p].shares[i])
    {
      ShareAt(s.slots[p].shares, i);
    }
  }

  /* --- The object ----------------------------------------------------------------------------- */

  datatype Reservation = NoReservation | Reservation(producer: nat, requested: nat, charge: nat)
  datatype Ownership = NoOwnership | Ownership(producer: nat, retained: nat, charge: nat)

  datatype Credit = Credit(local: nat, mailbox: nat, logical: nat)

  ghost predicate Tracks(c: Credit, slot: Slot) {
    c.local == slot.local && c.mailbox == slot.mailbox && c.logical == slot.logical
  }

  /** Nothing of any other producer has changed. */
  predicate OnlySlot(s: State, s': State, p: nat) {
    && |s'.slots| == |s.slots|
    && forall q :: 0 <= q < |s.slots| && q != p ==> s'.slots[q] == s.slots[q]
  }

  /** The ledger of one kernel. `model` tracks the state machine; calls here run without
      interference from other threads. */
  class Ledger {
    var credits: array<Credit>
    var central: nat
    const capacity: nat
    ghost var model: State

    ghost predicate Valid()
      reads this, credits
    {
      && Reachable(model)
      && model.capacity == capacity && model.central == central
      && |model.slots| == credits.Length
      && (forall p :: 0 <= p < credits.Length ==> Tracks(credits[p], model.slots[p]))
    }

    constructor (capacity: nat, producerCount: nat)
      ensures Valid() && fresh(credits) && Start(model)
      ensures this.capacity == capacity && credits.Length == producerCount
    {
      this.capacity, central := capacity, capacity;
      credits := new Credit[producerCount](_ => Credit(0, 0, 0));
      model := State(capacity, capacity, seq(producerCount, _ => Slot(0, 0, 0, Idle, [], NoReconcile)),
                     History(0, false, false));
      new;
      assert Run(model, []) == model;
    }

    ghost method Track(p: nat, m: SlotMove)
      requires Reachable(model)
      modifies this`model
      ensures model == Step(old(model), Action(p, m)) && Reachable(model)
    {
      ReachableStep(model, Action(p, m));
      model := Step(model, Action(p, m));
    }

    /** The weak compare-exchange loop: moves the deficit from the central budget to the slot exactly
        when the budget covers it, however often the exchange fails spuriously. */
    method Refill(producer: nat, deficit: nat, spuriousFailures: nat) returns (refilled: bool)
      requires Valid() && producer < credits.Length && model.slots[producer].owner.Loaded?
      requires model.slots[producer].owner.available == central
      requires deficit == model.slots[producer].owner.deficit
      modifies this`model, this`central, credits
      ensures Valid() && refilled == (old(central) >= deficit)
      ensures central == old(central) - (if refilled then deficit else 0)
      ensures credits[..] == old(credits[..])[producer := old(credits[producer]).(local :=
        old(credits[producer].local) + (if refilled then deficit else 0))]
      ensures var o := old(model).slots[producer].owner;
              model.slots == old(model).slots[producer := old(model).slots[producer].(
                local := credits[producer].local,
                owner := if refilled then Funded(o.requested, o.charge) else Idle)]
    {
      hide Reachable, Recorded;
      var available := central;
      var failures := spuriousFailures;
      while available >= deficit
        invariant Valid() && central == available == old(central) && credits == old(credits)
        invariant credits[..] == old(credits[..]) && model.slots == old(model).slots
        decreases failures
      {
        if failures == 0 {
          Track(producer, ExchangeCentral(false));
          central := central - deficit;
          credits[producer] := credits[producer].(local := credits[producer].local + deficit);
          return true;
        }
        Track(producer, ExchangeCentral(true));
        assert model.slots == old(model).slots;
        failures := failures - 1;
      }
      Track(producer, ExchangeCentral(false));
      return false;
    }

    /** Empties the mailbox into local credit and compares it with the charge. */
    method Prepare(producer: nat, worstCase: nat, charge: nat) returns (covered: bool)
      requires Valid() && producer < credits.Length && model.slots[producer].owner.Idle?
      requires 0 < charge == AccountingCharge(worstCase) <= capacity
      modifies this`model, credits
      ensures Valid() && OnlySlot(old(model), model, producer) && covered == (credits[producer].local >= charge)
      ensures credits[producer] == Credit(old(credits[producer].local + credits[producer].mailbox), 0,
                                          old(credits[producer].logical))
      ensures model.slots[producer].owner ==
        (if covered then Funded(worstCase, charge)
         else Loaded(worstCase, charge, charge - credits[producer].local, central))
    {
      hide Reachable, Recorded;
      credits[producer] := credits[producer].(local := credits[producer].local + credits[producer].mailbox,
                                              mailbox := 0);
      Track(producer, BeginReserve(worstCase));
      Track(producer, CheckLocal);
      return credits[producer].local >= charge;
    }

    /** Reserves the worst-case charge. Without interference this succeeds exactly when the slot's own
        credit and the central budget together cover it; otherwise only the mailbox is emptied. */
    method TryReserve(producer: nat, worstCase: nat, spuriousFailures: nat) returns (r: Reservation)
      requires Valid() && (producer < credits.Length ==> model.slots[producer].owner.Idle?)
      modifies this`model, this`central, credits
      ensures Valid() && OnlySlot(old(model), model, producer)
      ensures r.Reservation? <==>
        && producer < credits.Length
        && 0 < AccountingCharge(worstCase) <= capacity
        && AccountingCharge(worstCase) <= old(credits[producer].local + credits[producer].mailbox + central)
      ensures r.Reservation? ==>
        && r == Reservation(producer, worstCase, AccountingCharge(worstCase))
        && model.slots[producer].owner == Reserved(r.requested, r.charge)
        && credits[producer].logical == old(credits[producer].logical) + worstCase
        && central + credits[producer].local + r.charge ==
           old(central + credits[producer].local + credits[producer].mailbox)
      ensures r.NoReservation? ==>
        && central == old(central)
        && (producer < credits.Length ==>
              && model.slots[producer].owner.Idle?
              && credits[producer].local + credits[producer].mailbox ==
                 old(credits[producer].local + credits[producer].mailbox))
    {
      hide Reachable, Recorded;
      var charge := AccountingCharge(worstCase);
      if producer >= credits.Length || charge == 0 || charge > capacity {
        return NoReservation;
      }
      var covered := Prepare(producer, worstCase, charge);
      if !covered {
        var refilled := Refill(producer, charge - credits[producer].local, spuriousFailures);
        if !refilled {
          return NoReservation;
        }
      }
      credits[producer] := credits[producer].(local := credits[producer].local - charge);
      Track(producer, TakeLocal);
      credits[producer] := credits[producer].(logical := credits[producer].logical + worstCase);
      Track(producer, CountLogical);
      return Reservation(producer, worstCase, charge);
    }

    /** Turns the reservation into the ownership of the retained bytes and returns the surplus charge;
        a retained size the reservation does not cover abandons it instead. */
    method CommitReservation(r: Reservation, retained: nat) returns (o: Ownership)
      requires Valid() && r.Reservation? && r.producer < credits.Length
      requires model.slots[r.producer].owner == Reserved(r.requested, r.charge)
      modifies this`model, credits
      ensures Valid() && OnlySlot(old(model), model, r.producer) && model.slots[r.producer].owner.Idle?
      ensures o.Ownership? <==> CommitFits(r.requested, r.charge, retained)
      ensures o.Ownership? ==>
        && o == Ownership(r.producer, retained, AccountingCharge(retained))
        && model.slots[r.producer].shares == old(model.slots[r.producer].shares) + [Owned(o.retained, o.charge)]
        && credits[r.producer] == old(credits[r.producer]).(
             mailbox := old(credits[r.producer].mailbox) + (r.charge - o.charge),
             logical := credits[r.producer].logical)
        && credits[r.producer].logical == old(credits[r.producer].logical) - (r.requested - retained)
      ensures o.NoOwnership? ==>
        && model.slots[r.producer].shares == old(model.slots[r.producer].shares)
        && credits[r.producer].local == old(credits[r.producer].local)
        && credits[r.producer].mailbox == old(credits[r.producer].mailbox) + r.charge
        && credits[r.producer].logical == old(credits[r.producer].logical) - r.requested
    {
      hide Reachable, Recorded;
      var retainedCharge := AccountingCharge(retained);
      if retained > r.requested || retainedCharge == 0 || retainedCharge > r.charge {
        Abandon(r);
        return NoOwnership;
      }
      var p := r.producer;
      ReachableAmounts(model, p);
      credits[p] := credits[p].(mailbox := credits[p].mailbox + (r.charge - retainedCharge));
      Track(p, Commit(retained));
      credits[p] := credits[p].(logical := credits[p].logical - (r.requested - retained));
      Track(p, SettleCommit);
      return Ownership(p, retained, retainedCharge);
    }

    /** Forgets the reserved bytes and returns the whole charge to the mailbox. */
    method Abandon(r: Reservation)
      requires Valid() && r.Reservation? && r.producer < credits.Length
      requires model.slots[r.producer].owner == Reserved(r.requested, r.charge)
      modifies this`model, credits
      ensures Valid() && OnlySlot(old(model), model, r.producer) && model.slots[r.producer].owner.Idle?
      ensures model.slots[r.producer].shares == old(model.slots[r.producer].shares)
      ensures credits[r.producer].local == old(credits[r.producer].local)
      ensures credits[r.producer].mailbox == old(credits[r.producer].mailbox) + r.charge
      ensures credits[r.producer].logical == old(credits[r.producer].logical) - r.requested
    {
      hide Reachable, Recorded;
      var p := r.producer;
      ReachableAmounts(model, p);
      credits[p] := credits[p].(logical := credits[p].logical - r.requested);
      Track(p, AbandonReservation);
      credits[p] := credits[p].(mailbox := credits[p].mailbox + r.charge);
      Track(p, Refund);
    }

    /** Releases share `i` of a slot: its bytes are forgotten and its charge goes to the mailbox. */
    method ReleaseOwnership(o: Ownership, ghost i: nat)
      requires Valid() && o.Ownership? && o.producer < credits.Length
      requires i < |model.slots[o.producer].shares|
      requires model.slots[o.producer].shares[i] == Owned(o.retained, o.charge)
      modifies this`model, credits
      ensures Valid() && OnlySlot(old(model), model, o.producer)
      ensures model.slots[o.producer].owner == old(model.slots[o.producer].owner)
      ensures var before := old(model.slots[o.producer].shares);
              model.slots[o.producer].shares == before[..i] + before[i + 1..]
      ensures credits[o.producer].local == old(credits[o.producer].local)
      ensures credits[o.producer].mailbox == old(credits[o.producer].mailbox) + o.charge
      ensures credits[o.producer].logical == old(credits[o.producer].logical) - o.retained
    {
      hide Reachable, Recorded;
      var p := o.producer;
      ReachableAmounts(model, p);
      ghost var before := model.slots[p].shares;
      credits[p] := credits[p].(logical := credits[p].logical - o.retained);
      Track(p, Release(i));
      assert model.slots[p].shares == before[i := Releasing(o.charge)];
      credits[p] := credits[p].(mailbox := credits[p].mailbox + o.charge);
      Track(p, ReturnShare(i));
    }

    /** Moves a slot's local credit to the central budget. */
    method GiveBack(producer: nat)
      requires Valid() && producer < credits.Length && model.slots[producer].reconciler.Merged?
      modifies this`model, this`central, credits
      ensures Valid() && OnlySlot(old(model), model, producer)
      ensures credits[producer] == old(credits[producer]).(local := 0)
      ensures model.slots[producer].reconciler.NoReconcile?
      ensures central == old(central + credits[producer].local)
    {
      hide Reachable, Recorded;
      var local := credits[producer].local;
      Track(producer, ReconcileLoad);
      if local != 0 {
        central := central + local;
        Track(producer, ReconcileAdd);
        credits[producer] := credits[producer].(local := 0);
        Track(producer, ReconcileStore);
      }
    }

    /** Gives a retired slot's credit back to the central budget once nothing is retained. */
    method TryReconcileProducer(producer: nat) returns (reconciled: bool)
      requires Valid() && (producer < credits.Length ==> model.slots[producer].reconciler.NoReconcile?)
      modifies this`model, this`central, credits
      ensures Valid() && OnlySlot(old(model), model, producer)
      ensures reconciled <==> producer < credits.Length && old(credits[producer].logical) == 0
      ensures reconciled ==>
        && credits[producer] == Credit(0, 0, 0) && model.slots[producer].reconciler.NoReconcile?
        && central == old(central + credits[producer].local + credits[producer].mailbox)
      ensures !reconciled ==> model == old(model)
    {
      hide Reachable, Recorded;
      if producer >= credits.Length || credits[producer].logical != 0 {
        return false;
      }
      Track(producer, ReconcileTest);
      credits[producer] := credits[producer].(local := credits[producer].local + credits[producer].mailbox,
                                              mailbox := 0);
      Track(producer, ReconcileTake);
      GiveBack(producer);
      return true;
    }

    /** Sums the slots' logical bytes and reads the central budget. Without interference, and as long as
        reconciliations and reservations have kept apart, the sample is exact and consistent. */
    method GetSnapshot() returns (r: Snapshot)
      requires Valid()
      ensures TotalLogical(model.slots) >= 0 && r == MakeSnapshot(capacity, central, TotalLogical(model.slots))
      ensures !model.history.overlapped ==>
        r.central == central && r.consistent && r.logical == TotalLogical(model.slots) &&
        r.physical == TotalHeld(model.slots)
    {
      hide Reachable, MakeSnapshot, TotalHeld, TotalLogical, Inv;
      TotalNone(model.slots);
      var logical := 0;
      for index := 0 to credits.Length
        invariant logical == TotalLogical(model.slots[..index])
      {
        LogicalPrefix(model.slots, index);
        logical := logical + credits[index].logical;
      }
      assert model.slots[..credits.Length] == model.slots;
      ReachableInv(model);
      TotalLogicalNotNegative(model);
      if !model.history.overlapped {
        SnapshotExact(model);
      }
      return MakeSnapshot(capacity, central, logical);
    }
  }

  lemma TotalNone(slots: seq<Slot>)
    ensures TotalLogical(slots[..0]) == 0
  {}

  lemma {:induction false} LogicalPrefix(slots: seq<Slot>, index: nat)
    requires index < |slots|
    ensures TotalLogical(slots[..index + 1]) == TotalLogical(slots[..index]) + slots[index].logical
    decreases |slots|
  {
    if index == 0 {
      assert slots[..1][1..] == [];
    } else {
      LogicalPrefix(slots[1..], index - 1);
      assert slots[..index + 1][1..] == slots[1..][..index];
      assert slots[..index][1..] == slots[1..][..index - 1];
    }
  }
}
