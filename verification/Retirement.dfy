/** Retirement of a producer slot (src/producer/producer_kernel.cpp:316-331), access by access.

The kernel (module ProducerKernel) and the credit ledger (module CreditLedger) run side by side: the holder of a
lane reserves, commits and abandons credit as it publishes, and the consumer releases a record's credit as it
empties the cell. Any number of threads run TryFinishRetirement; its tests of the lane, its exchange, its accesses to
the ledger and its stores are separate steps, and other threads may move in between. A lane found drained may
therefore have been filled again by the time the exchange succeeds: what then keeps the generation from advancing
is the ledger, whose retained bytes count every record not yet consumed.

That leaves one window. A call that has seen its slot active and has no bytes counted yet is invisible to a finisher
that tested the lane before the call claimed it. A registration retired in that window leaves its slot exposed; every
other retirement is safe, whether or not calls of the same registration are under way.
*/
module Retirement {
  import opened Accounting
  import C = CreditLedger
  import K = ProducerKernel
  import L = ProducerLanes
  import opened Options

  /** A thread's progress through TryFinishRetirement. */
  datatype Finisher =
    | Away
    | AtFlag(slot: nat)
    | AtPositions(slot: nat)                // the publishing flag was clear
    | AtRead(slot: nat, published: nat)     // the published position was read
    | Drained(slot: nat)                    // and the read position was the same
    | Exchanged(slot: nat)                  // the slot is in its hands
    | Refusing(slot: nat)                   // bytes were retained
    | Empty(slot: nat)                      // no bytes were retained
    | Reconciled(slot: nat)                 // the slot's credit is back
    | Advanced(slot: nat)                   // the generation has moved on

  /** `callers` gives the generation of the call under way on each lane and `issued` the last generation handed out
      on each slot. `exposed` tells which slots had a registration retired in the window, and `hasty` that a
      registration was retired while admission was open. All four are history variables. */
  datatype State = State(
    kernel: K.State, credit: C.State, finishers: seq<Finisher>, callers: seq<Option<nat>>, issued: seq<nat>,
    exposed: seq<bool>, hasty: bool)

  datatype FinisherMove =
    | Enter(slot: nat) | TestFlag | LoadPublished | LoadRead | Exchange | LoadLogical | Restore
    | MoveCredit(access: C.SlotMove) | Advance | Release

  datatype Action =
    | Kernel(step: K.Action)                    // accesses that touch neither credit nor registrations
    | Confirm(p: nat)
    | Call(p: nat, generation: nat)
    | Produce(p: nat, move: K.ProducerMove)
    | Credit(p: nat, access: C.SlotMove)
    | CountCharge(p: nat)
    | RefuseCredit(p: nat)
    | Install(p: nat)
    | GiveUp(p: nat)
    | EndCall(p: nat)
    | EmptyCell
    | ReturnCharge
    | Retire(p: nat, generation: nat)
    | Finish(f: nat, part: FinisherMove)

  /* --- Steps ---------------------------------------------------------------------------------------- */

  predicate Plain(a: K.Action) {
    match a
    case ControlStep(_, m) => m.Register?
    case LaneStep(_, m) => !m.ClearFlag?
    case ProducerStep(_, _) => false
    case GiveUp(_) => false
    case Clear => false
    case _ => true
  }

  function Owner(s: State, p: nat): C.Owner {
    if p < |s.credit.slots| then s.credit.slots[p].owner else C.Idle
  }

  /** The credit of the emptied record is still on its way to the mailbox. */
  predicate Returning(s: State) {
    && s.kernel.taking.Cleared? && s.kernel.lanes.consumer.Holding?
    && s.kernel.lanes.consumer.lane < |s.credit.slots|
    && var shares := s.credit.slots[s.kernel.lanes.consumer.lane].shares; shares != [] && shares[0].Releasing?
  }

  /** The holder's access to the ledger belongs to where its call stands. */
  predicate Fits(stage: K.Stage, maximum: nat, m: C.SlotMove) {
    match m
    case BeginReserve(requested) => stage.Admitted? && requested == maximum
    case CheckLocal => stage.Admitted?
    case ExchangeCentral(_) => stage.Admitted?
    case TakeLocal => stage.Admitted?
    case Commit(retained) => stage.Finished? && retained == stage.size.serialized
    case AbandonReservation => stage.Refused?
    case Refund => stage.Refused?
    case _ => false
  }

  predicate Enabled(s: State, a: Action) {
    match a
    case Kernel(k) => Plain(k) && (k.Acknowledge? ==> !Returning(s))
    case Confirm(p) => p < |s.kernel.controls| && p < |s.issued| && s.kernel.controls[p].registering
    case Call(p, generation) =>
      && K.Working(s.kernel, p) && s.kernel.stages[p].Fresh?
      && p < |s.callers| && p < |s.issued| && generation <= s.issued[p]
    case Produce(p, m) =>
      && p < |s.callers| && s.callers[p].Some? && K.Enabled(s.kernel, K.ProducerStep(p, m))
      && (m.CheckGeneration? ==> m.generation == s.callers[p].value)
      && !m.CheckAdmission? && !m.ReserveCredit? && !m.CommitRecord?
    case Credit(p, m) => p < |s.kernel.stages| && Fits(s.kernel.stages[p], s.kernel.maximum, m)
    case CountCharge(p) => K.Working(s.kernel, p) && s.kernel.stages[p].Admitted? && Owner(s, p).Charged?
    case RefuseCredit(p) => K.Working(s.kernel, p) && s.kernel.stages[p].Admitted? && Owner(s, p).Idle?
    case Install(p) => K.Working(s.kernel, p) && s.kernel.stages[p].Finished? && Owner(s, p).Shrunk?
    case GiveUp(p) => K.Enabled(s.kernel, K.GiveUp(p)) && Owner(s, p).Idle? && p < |s.callers|
    case EndCall(p) => K.Enabled(s.kernel, K.LaneStep(p, L.ClearFlag)) && p < |s.callers|
    case EmptyCell => K.Enabled(s.kernel, K.Clear)
    case ReturnCharge => Returning(s)
    case Retire(p, _) => p < |s.kernel.controls| && p < |s.exposed|
    case Finish(f, m) =>
      && f < |s.finishers| && (m.Enter? ==> m.slot < |s.kernel.controls|)
      && (m.MoveCredit? ==> CreditMove(m.access))
  }

  /** TryReconcileProducer after its test. */
  predicate CreditMove(m: C.SlotMove) {
    m.ReconcileTake? || m.ReconcileLoad? || m.ReconcileAdd? || m.ReconcileStore?
  }

  /** The slot's credit after the access, if the access comes next. */
  function Reconcile(s: State, p: nat, m: C.SlotMove): C.State {
    C.Step(s.credit, C.Action(p, m))
  }

  predicate Comes(s: State, p: nat, m: C.SlotMove) {
    p < |s.credit.slots| && C.CanMove(s.credit.capacity, s.credit.slots[p], m)
  }

  /** A finisher's next state. */
  function Next(s: State, f: Finisher, m: FinisherMove): Finisher {
    var k := s.kernel;
    match m
    case Enter(p) => if f.Away? then AtFlag(p) else f
    case TestFlag =>
      if !f.AtFlag? then f
      else if f.slot < |k.lanes.lanes| && !k.lanes.lanes[f.slot].publishing then AtPositions(f.slot) else Away
    case LoadPublished =>
      if !f.AtPositions? then f
      else if f.slot < |k.lanes.lanes| then AtRead(f.slot, k.lanes.lanes[f.slot].published) else Away
    case LoadRead =>
      if !f.AtRead? then f
      else if f.slot < |k.lanes.lanes| && k.lanes.lanes[f.slot].read == f.published then Drained(f.slot) else Away
    case Exchange =>
      if !f.Drained? then f
      else if f.slot < |k.controls| && k.controls[f.slot].state.Retiring? then Exchanged(f.slot) else Away
    case LoadLogical =>
      if !f.Exchanged? then f
      else if f.slot < |s.credit.slots| && s.credit.slots[f.slot].logical == 0 then Empty(f.slot) else Refusing(f.slot)
    case Restore => if f.Refusing? then Away else f
    case MoveCredit(access) =>
      if !f.Empty? || !Comes(s, f.slot, access) then f
      else if f.slot < |Reconcile(s, f.slot, access).slots| &&
              Reconcile(s, f.slot, access).slots[f.slot].reconciler.NoReconcile? then Reconciled(f.slot)
      else f
    case Advance => if f.Reconciled? then Advanced(f.slot) else f
    case Release => if f.Advanced? then Away else f
  }

  /** What the move stores in the slot's control. */
  function Control(f: Finisher, m: FinisherMove): Option<K.ControlMove> {
    match m
    case Exchange => if f.Drained? then Some(K.BeginReconcile) else None
    case Restore => if f.Refusing? then Some(K.RefuseReconcile) else None
    case Advance => if f.Reconciled? then Some(K.AdvanceGeneration) else None
    case Release => if f.Advanced? then Some(K.ReleaseSlot) else None
    case _ => None
  }

  /** The move's access to the ledger. */
  function Ledger(f: Finisher, m: FinisherMove): Option<C.SlotMove> {
    match m
    case LoadLogical => if f.Exchanged? then Some(C.ReconcileTest) else None
    case MoveCredit(access) => if f.Empty? then Some(access) else None
    case _ => None
  }

  function Finished(s: State, i: nat, m: FinisherMove): State
    requires i < |s.finishers|
  {
    var f := s.finishers[i];
    var c, l := Control(f, m), Ledger(f, m);
    s.(finishers := s.finishers[i := Next(s, f, m)],
       kernel := if c.Some? && !f.Away? then K.Step(s.kernel, K.ControlStep(f.slot, c.value)) else s.kernel,
       credit := if l.Some? && !f.Away? then Reconcile(s, f.slot, l.value) else s.credit)
  }

  /** The registration is current and its retirement takes effect. */
  predicate Takes(c: K.Control, generation: nat) {
    c.generation == generation && c.state.Active? && !c.registering
  }

  /** The call has seen its slot active under its own generation and has no bytes counted in the ledger yet. */
  predicate Uncounted(c: K.Control, stage: K.Stage, caller: Option<nat>) {
    stage.Admitted? || (stage.SawActive? && caller == Some(c.generation))
  }

  /** The finisher has overlooked any call now under way on the lane, and may yet find the lane drained. */
  predicate StaleOn(f: Finisher, p: nat, read: nat) {
    f == AtPositions(p) || f == Drained(p) || (f.AtRead? && f.slot == p && read <= f.published)
  }

  predicate Stale(finishers: seq<Finisher>, p: nat, read: nat) {
    exists i :: 0 <= i < |finishers| && StaleOn(finishers[i], p, read)
  }

  /** Retiring the registration of slot `p` now would expose the slot. */
  predicate Window(s: State, p: nat) {
    && p < |s.kernel.controls| && p < |s.kernel.stages| && p < |s.callers| && p < |s.kernel.lanes.lanes|
    && Uncounted(s.kernel.controls[p], s.kernel.stages[p], s.callers[p])
    && Stale(s.finishers, p, s.kernel.lanes.lanes[p].read)
  }

  function Step(s: State, a: Action): State {
    if !Enabled(s, a) then s else
    match a
    case Kernel(k) => s.(kernel := K.Step(s.kernel, k))
    case Confirm(p) =>
      s.(kernel := K.Step(s.kernel, K.ControlStep(p, K.ConfirmRegistration)),
         issued := if s.kernel.open then s.issued[p := s.kernel.controls[p].generation] else s.issued)
    case Call(p, generation) =>
      s.(kernel := K.Step(s.kernel, K.ProducerStep(p, K.CheckAdmission)), callers := s.callers[p := Some(generation)])
    case Produce(p, m) => s.(kernel := K.Step(s.kernel, K.ProducerStep(p, m)))
    case Credit(p, m) => s.(credit := C.Step(s.credit, C.Action(p, m)))
    case CountCharge(p) =>
      s.(kernel := K.Step(s.kernel, K.ProducerStep(p, K.ReserveCredit(true))),
         credit := C.Step(s.credit, C.Action(p, C.CountLogical)))
    case RefuseCredit(p) => s.(kernel := K.Step(s.kernel, K.ProducerStep(p, K.ReserveCredit(false))))
    case Install(p) =>
      s.(kernel := K.Step(s.kernel, K.ProducerStep(p, K.CommitRecord)),
         credit := C.Step(s.credit, C.Action(p, C.SettleCommit)))
    case GiveUp(p) => s.(kernel := K.Step(s.kernel, K.GiveUp(p)), callers := s.callers[p := None])
    case EndCall(p) => s.(kernel := K.Step(s.kernel, K.LaneStep(p, L.ClearFlag)), callers := s.callers[p := None])
    case EmptyCell =>
      s.(kernel := K.Step(s.kernel, K.Clear),
         credit := C.Step(s.credit, C.Action(s.kernel.lanes.consumer.lane, C.Release(0))))
    case ReturnCharge =>
      s.(credit := C.Step(s.credit, C.Action(s.kernel.lanes.consumer.lane, C.ReturnShare(0))))
    case Retire(p, generation) =>
      var takes := Takes(s.kernel.controls[p], generation);
      s.(kernel := K.Step(s.kernel, K.ControlStep(p, K.Retire(generation))),
         exposed := s.exposed[p := s.exposed[p] || (takes && Window(s, p))],
         hasty := s.hasty || (takes && s.kernel.open))
    case Finish(i, m) => Finished(s, i, m)
  }

  function Run(s: State, schedule: seq<Action>): State {
    if schedule == [] then s
    else Step(Run(s, schedule[..|schedule| - 1]), schedule[|schedule| - 1])
  }

  /* --- One slot ------------------------------------------------------------------------------------- */

  /** What holds of a slot's registration and its call in every run. */
  predicate CallOk(c: K.Control, stage: K.Stage, caller: Option<nat>, issued: nat) {
    && issued <= c.generation && (issued == c.generation ==> !c.registering && !c.state.Free?)
    && (c.registering ==> c.state.Active?) && (c.state.Active? && !c.registering ==> issued == c.generation)
    && (caller.Some? ==> caller.value <= issued)
    && (!stage.Fresh? ==> caller.Some?)
    && (K.HasGeneration(stage) ==> caller == Some(stage.generation))
  }

  /** What the call holds of the ledger, by how far it has come. */
  predicate OwnerOk(stage: K.Stage, owner: C.Owner, maximum: nat) {
    var charge := AccountingCharge(maximum);
    match stage
    case Admitted(_) =>
      || owner.Idle?
      || ((owner.Drained? || owner.Loaded? || owner.Funded? || owner.Charged?) &&
          owner.requested == maximum && owner.charge == charge)
    case Reserved(_) => owner == C.Reserved(maximum, charge)
    case Writing(_) => owner == C.Reserved(maximum, charge)
    case Finished(_, size) =>
      owner == C.Reserved(maximum, charge) || owner == C.Shrunk(maximum, size.serialized, size.charge)
    case Refused => owner.Idle? || owner == C.Reserved(maximum, charge) || owner.Forgotten?
    case _ => owner.Idle?
  }

  function ShareOf(record: L.RecordHandle): C.Share { C.Owned(record.serializedBytes, record.chargeBytes) }

  function One(b: bool): nat { if b then 1 else 0 }

  predicate HeadReleasing(shares: seq<C.Share>) { shares != [] && shares[0].Releasing? }

  predicate OwnedAt(l: L.Lane, log: seq<L.Admission>, shares: seq<C.Share>, from: nat, i: nat) {
    from <= i < |l.admitted| ==>
    l.admitted[i] < |log| && One(HeadReleasing(shares)) + i - from < |shares| &&
    shares[One(HeadReleasing(shares)) + i - from] == ShareOf(log[l.admitted[i]].record)
  }

  /** The slot's shares are those of the records admitted and not yet emptied, in order, then that of the record
      installed and not yet admitted; before them at most the one on its way back. */
  ghost predicate SharesOk(l: L.Lane, stage: K.Stage, cleared: bool, shares: seq<C.Share>, log: seq<L.Admission>) {
    var from := l.read + One(cleared);
    && (HeadReleasing(shares) ==> cleared)
    && from <= |l.admitted|
    && |shares| == One(HeadReleasing(shares)) + |l.admitted| - from + One(stage.Installed?)
    && (forall i: nat :: OwnedAt(l, log, shares, from, i))
    && (stage.Installed? ==> shares[|shares| - 1] == C.Owned(stage.size.serialized, stage.size.charge))
    && (forall j :: 0 <= j < |shares| ==> shares[j].Owned? ==> shares[j].retained > 0)
    && (forall j :: 1 <= j < |shares| ==> shares[j].Owned?)
  }

  ghost predicate PlaceOk(c: K.Control, stage: K.Stage, l: L.Lane, cleared: bool, slot: C.Slot, caller: Option<nat>,
                          issued: nat, log: seq<L.Admission>, maximum: nat)
  {
    && CallOk(c, stage, caller, issued) && OwnerOk(stage, slot.owner, maximum)
    && SharesOk(l, stage, cleared, slot.shares, log)
    && (c.state.Reconciling? || slot.reconciler.NoReconcile?)
  }

  /** A call past its generation check whose record is not published yet. */
  predicate Live(stage: K.Stage, holder: L.Holder) {
    K.HasGeneration(stage) && (stage.Publishing? ==> L.MidPublication(holder))
  }

  /** What holds of the call on a slot that was never exposed: it works under its slot's generation, and as long as it
      has no bytes counted the slot is active, or retiring with no finisher that has overlooked the call. */
  predicate CallSafe(c: K.Control, stage: K.Stage, holder: L.Holder, caller: Option<nat>, stale: bool) {
    && (Live(stage, holder) ==> caller == Some(c.generation))
    && (Uncounted(c, stage, caller) ==> c.state.Active? || (c.state.Retiring? && !stale))
  }

  /** What holds of the credit of such a slot: while it is reconciled no bytes are retained and nobody else uses the
      local credit. */
  predicate CreditSafe(slot: C.Slot) {
    && (!slot.reconciler.NoReconcile? ==> slot.logical == 0)
    && (slot.reconciler.Totaled? || slot.reconciler.Added? ==> slot.local == slot.reconciler.total)
  }

  predicate ShapeOk(s: State) {
    && |s.callers| == |s.issued| == |s.exposed| == |s.credit.slots|
    && |s.callers| == |s.kernel.controls| == |s.kernel.stages| == |s.kernel.lanes.lanes|
  }

  predicate SafeAt(s: State, p: nat)
    requires ShapeOk(s) && p < |s.callers|
  {
    !s.exposed[p] ==>
      && CallSafe(s.kernel.controls[p], s.kernel.stages[p], s.kernel.lanes.lanes[p].holder, s.callers[p],
                  Stale(s.finishers, p, s.kernel.lanes.lanes[p].read))
      && CreditSafe(s.credit.slots[p])
  }

  ghost predicate PlaceAt(s: State, p: nat)
    requires ShapeOk(s) && p < |s.callers|
  {
    && PlaceOk(s.kernel.controls[p], s.kernel.stages[p], s.kernel.lanes.lanes[p], K.ClearedAt(s.kernel, p),
               s.credit.slots[p], s.callers[p], s.issued[p], s.kernel.lanes.admissions, s.kernel.maximum)
    && SafeAt(s, p)
  }

  predicate Holds(f: Finisher) {
    f.Exchanged? || f.Refusing? || f.Empty? || f.Reconciled? || f.Advanced?
  }

  /** A finisher past its exchange has the slot to itself. Unless the slot was exposed, past its test of the bytes none
      are retained, and past its reconciliation no credit is left in hand. */
  predicate FinisherOk(s: State, f: Finisher)
    requires ShapeOk(s)
  {
    && (!f.Away? ==> f.slot < |s.callers|)
    && (f.AtRead? ==> f.published <= s.kernel.lanes.lanes[f.slot].published)
    && (Holds(f) ==>
          && s.kernel.controls[f.slot].state.Reconciling?
          && (f.Empty? <==> !s.credit.slots[f.slot].reconciler.NoReconcile?))
    && (f.Advanced? ==> s.issued[f.slot] < s.kernel.controls[f.slot].generation)
    && ((f.Reconciled? || f.Advanced?) && !s.exposed[f.slot] ==>
          s.credit.slots[f.slot].logical == 0 && s.credit.slots[f.slot].local == 0)
  }

  predicate FinishersOk(s: State)
    requires ShapeOk(s)
  {
    && (forall i :: 0 <= i < |s.finishers| ==> FinisherOk(s, s.finishers[i]))
    && (forall i, j :: 0 <= i < j < |s.finishers| && Holds(s.finishers[i]) && Holds(s.finishers[j]) ==>
          s.finishers[i].slot != s.finishers[j].slot)
  }

  ghost predicate Clean(s: State)
    requires ShapeOk(s)
  {
    && (forall p :: 0 <= p < |s.callers| ==> PlaceAt(s, p))
    && FinishersOk(s)
  }

  /** No slot was exposed. */
  predicate Sheltered(s: State) {
    forall p :: 0 <= p < |s.exposed| ==> !s.exposed[p]
  }

  ghost predicate Inv(s: State) {
    && K.Inv(s.kernel) && C.Inv(s.credit) && ShapeOk(s) && Clean(s)
    && (Sheltered(s) ==> !s.credit.history.overlapped)
  }

  lemma WindowAt(l: L.Lane, stage: K.Stage, cleared: bool, shares: seq<C.Share>, log: seq<L.Admission>, i: nat)
    requires SharesOk(l, stage, cleared, shares, log)
    ensures OwnedAt(l, log, shares, l.read + One(cleared), i)
  {
    hide OwnedAt;
  }

  /* --- Frames --------------------------------------------------------------------------------------- */

  /** In the kernel nothing of another lane or slot has changed, and the log has only grown. */
  ghost predicate KernelOthers(k: K.State, k': K.State, p: nat) {
    && |k'.lanes.lanes| == |k.lanes.lanes| && |k'.stages| == |k.stages| && |k'.controls| == |k.controls|
    && k'.maximum == k.maximum && k.lanes.admissions <= k'.lanes.admissions
    && (forall q :: 0 <= q < |k.lanes.lanes| && q != p ==> k'.lanes.lanes[q] == k.lanes.lanes[q])
    && (forall q :: 0 <= q < |k.stages| && q != p ==> k'.stages[q] == k.stages[q])
    && (forall q :: 0 <= q < |k.controls| && q != p ==> k'.controls[q] == k.controls[q])
    && (forall q :: q != p ==> K.ClearedAt(k', q) == K.ClearedAt(k, q))
  }

  ghost predicate Others(s: State, s': State, p: nat) {
    && KernelOthers(s.kernel, s'.kernel, p)
    && |s'.credit.slots| == |s.credit.slots| && |s'.callers| == |s.callers| && |s'.issued| == |s.issued|
    && |s'.exposed| == |s.exposed|
    && (forall q :: 0 <= q < |s.credit.slots| && q != p ==> s'.credit.slots[q] == s.credit.slots[q])
    && (forall q :: 0 <= q < |s.callers| && q != p ==> s'.callers[q] == s.callers[q])
    && (forall q :: 0 <= q < |s.issued| && q != p ==> s'.issued[q] == s.issued[q])
    && (forall q :: 0 <= q < |s.exposed| && q != p ==> s'.exposed[q] == s.exposed[q])
  }

  lemma LogGrows(l: L.Lane, stage: K.Stage, cleared: bool, shares: seq<C.Share>, log: seq<L.Admission>,
                 log': seq<L.Admission>)
    requires SharesOk(l, stage, cleared, shares, log) && log <= log'
    ensures SharesOk(l, stage, cleared, shares, log')
  {
    var from := l.read + One(cleared);
    forall i: nat
      ensures OwnedAt(l, log', shares, from, i)
    {
      WindowAt(l, stage, cleared, shares, log, i);
    }
  }

  /** No finisher has newly overlooked what goes on elsewhere. */
  ghost predicate StaleFrame(s: State, s': State, p: nat)
    requires ShapeOk(s)
  {
    forall q :: 0 <= q < |s.callers| && q != p &&
                Stale(s'.finishers, q, s.kernel.lanes.lanes[q].read) ==>
                Stale(s.finishers, q, s.kernel.lanes.lanes[q].read)
  }

  lemma PlacesFrame(s: State, s': State, p: nat)
    requires ShapeOk(s) && (forall q :: 0 <= q < |s.callers| ==> PlaceAt(s, q)) && Others(s, s', p)
    requires StaleFrame(s, s', p) && p < |s.callers| && PlaceAt(s', p)
    ensures forall q :: 0 <= q < |s'.callers| ==> PlaceAt(s', q)
  {
    hide CallOk, OwnerOk, SharesOk, K.ClearedAt, Live, Uncounted, Stale, CreditSafe;
    forall q | 0 <= q < |s'.callers|
      ensures PlaceAt(s', q)
    {
      if q != p {
        assert PlaceAt(s, q);
        LogGrows(s.kernel.lanes.lanes[q], s.kernel.stages[q], K.ClearedAt(s.kernel, q), s.credit.slots[q].shares,
                 s.kernel.lanes.admissions, s'.kernel.lanes.admissions);
      }
    }
  }

  /** The slot is still in a finisher's hands, and unless it is exposed, with no more bytes retained than before and
      the same local credit. */
  predicate KeepsHold(s: State, s': State, p: nat)
    requires ShapeOk(s) && ShapeOk(s') && |s'.callers| == |s.callers| && p < |s.callers|
  {
    && s'.kernel.lanes.lanes[p].published >= s.kernel.lanes.lanes[p].published
    && (s.kernel.controls[p].state.Reconciling? ==>
          && s'.kernel.controls[p].state.Reconciling? && s'.issued[p] == s.issued[p]
          && s'.kernel.controls[p].generation == s.kernel.controls[p].generation
          && s'.credit.slots[p].reconciler == s.credit.slots[p].reconciler
          && (!s'.exposed[p] ==>
                && !s.exposed[p] && s'.credit.slots[p].local == s.credit.slots[p].local
                && (s.credit.slots[p].logical == 0 ==> s'.credit.slots[p].logical == 0)))
  }

  lemma FinishersFrame(s: State, s': State, p: nat)
    requires ShapeOk(s) && ShapeOk(s') && FinishersOk(s) && Others(s, s', p) && p < |s.callers| && KeepsHold(s, s', p)
    requires s'.finishers == s.finishers
    ensures FinishersOk(s')
  {
    hide K.ClearedAt;
    forall i | 0 <= i < |s'.finishers|
      ensures FinisherOk(s', s'.finishers[i])
    {
      assert FinisherOk(s, s.finishers[i]);
    }
  }

  lemma CleanFrame(s: State, s': State, p: nat)
    requires ShapeOk(s) && ShapeOk(s') && Clean(s) && Others(s, s', p) && p < |s.callers|
    requires PlaceAt(s', p) && KeepsHold(s, s', p) && s'.finishers == s.finishers
    ensures Clean(s')
  {
    hide Others, PlaceAt, KeepsHold, FinishersOk, Stale;
    PlacesFrame(s, s', p);
    FinishersFrame(s, s', p);
  }

  /* --- What the kernel's steps change --------------------------------------------------------------- */

  lemma ProducerEffect(k: K.State, p: nat, m: K.ProducerMove)
    requires K.Enabled(k, K.ProducerStep(p, m))
    ensures var k' := K.Step(k, K.ProducerStep(p, m)); var c := K.ClaimedCell(k, p);
            && KernelOthers(k, k', p) && k'.controls == k.controls && k'.lanes == k.lanes && k'.open == k.open
            && K.ClearedAt(k', p) == K.ClearedAt(k, p)
            && k'.stages[p] == K.Produce(k.stages[p], k.cells[c], k.controls[p], k.open, k.maximum, m).stage
  {
    hide K.Produce, K.WriterPromises;
  }

  /** The lane's positions grow only at the published end, and no publication begins. */
  predicate LaneGrows(l: L.Lane, l': L.Lane) {
    && l'.read == l.read && l'.admitted == l.admitted && l'.published >= l.published
    && (L.MidPublication(l'.holder) ==> L.MidPublication(l.holder))
  }

  lemma LaneEffect(k: K.State, p: nat, m: L.LaneMove)
    requires K.Enabled(k, K.LaneStep(p, m)) && L.PositionsOk(k.lanes.lanes[p])
    ensures var k' := K.Step(k, K.LaneStep(p, m));
            && KernelOthers(k, k', p) && k'.controls == k.controls && K.ClearedAt(k', p) == K.ClearedAt(k, p)
            && k'.lanes.admissions == k.lanes.admissions && k'.open == k.open
            && LaneGrows(k.lanes.lanes[p], k'.lanes.lanes[p])
            && k'.stages[p] == if m.ReadPositions? || m.ClearFlag? then K.Fresh else k.stages[p]
  {
    hide K.WriterPromises;
  }

  lemma GiveUpEffect(k: K.State, p: nat)
    requires K.Enabled(k, K.GiveUp(p))
    ensures var k' := K.Step(k, K.GiveUp(p));
            && KernelOthers(k, k', p) && k'.controls == k.controls && K.ClearedAt(k', p) == K.ClearedAt(k, p)
            && k'.lanes.admissions == k.lanes.admissions && k'.open == k.open
            && LaneGrows(k.lanes.lanes[p], k'.lanes.lanes[p]) && k'.stages[p].Fresh?
  {
    hide K.WriterPromises;
  }

  lemma WriteEffect(k: K.State, p: nat)
    requires K.Enabled(k, K.WriteCell(p))
    ensures var k' := K.Step(k, K.WriteCell(p));
            && KernelOthers(k, k', p) && k'.controls == k.controls && K.ClearedAt(k', p) == K.ClearedAt(k, p)
            && k'.lanes.admissions == k.lanes.admissions && k'.stages == k.stages && k'.open == k.open
            && LaneGrows(k.lanes.lanes[p], k'.lanes.lanes[p])
  {
    hide K.WriterPromises;
  }

  lemma ControlEffect(k: K.State, p: nat, m: K.ControlMove)
    requires p < |k.controls|
    ensures var k' := K.Step(k, K.ControlStep(p, m));
            && KernelOthers(k, k', p) && k'.stages == k.stages && k'.lanes == k.lanes && k'.open == k.open
            && K.ClearedAt(k', p) == K.ClearedAt(k, p)
            && k'.controls[p] == K.Controlled(k.controls[p], k.open, m)
  {
    hide K.WriterPromises, K.Controlled;
  }

  lemma PublishEffect(k: K.State, p: nat)
    requires K.Inv(k) && K.Enabled(k, K.PublishRecord(p))
    ensures var k', l := K.Step(k, K.PublishRecord(p)), k.lanes.lanes[p];
            && KernelOthers(k, k', p) && k'.controls == k.controls && K.ClearedAt(k', p) == K.ClearedAt(k, p)
            && k'.lanes.lanes[p].read == l.read && k'.lanes.lanes[p].admitted == l.admitted + [|k.lanes.admissions|]
            && k'.lanes.lanes[p].published == l.published && k'.open == k.open
            && k'.stages[p] == K.Publishing(k.stages[p].generation)
            && |k'.lanes.admissions| == |k.lanes.admissions| + 1
            && ShareOf(k'.lanes.admissions[|k.lanes.admissions|].record) ==
               C.Owned(k.stages[p].size.serialized, k.stages[p].size.charge)
  {
    hide L.Step, L.Enabled, L.Inv, K.Inv, K.PlacesOk, K.WriterPromises;
    K.HandleAccepted(k, p);
    K.LaneAt(k, p);
    LanesInv(k);
    K.ClaimedStage(k.lanes.lanes[p], k.stages[p], k.cells, k.lanes.admissions, k.maximum, K.ClearedAt(k, p));
    K.AllocateEffect(k.lanes, p, K.Handle(k, p));
  }

  lemma LanesInv(k: K.State)
    requires K.Inv(k)
    ensures L.Inv(k.lanes) && K.ShapeOk(k) && K.TakingOk(k)
  {
    hide L.Inv, K.CellsOk, K.EntriesOk, K.ControlsOk, K.ScanOk;
  }

  lemma AcknowledgeEffect(k: K.State)
    requires K.Inv(k) && K.Enabled(k, K.Acknowledge)
    ensures var k', p := K.Step(k, K.Acknowledge), k.lanes.consumer.lane;
            && p < |k.lanes.lanes| && KernelOthers(k, k', p) && k'.controls == k.controls && k'.stages == k.stages
            && K.ClearedAt(k, p) && !K.ClearedAt(k', p) && k'.lanes.admissions == k.lanes.admissions
            && k'.lanes.lanes[p] == k.lanes.lanes[p].(read := k.lanes.lanes[p].read + 1) && k'.open == k.open
  {
    hide K.Inv, K.WriterPromises;
    K.HeldCell(k);
  }

  lemma ClearEffect(k: K.State)
    requires K.Inv(k) && K.Enabled(k, K.Clear)
    ensures var k', p := K.Step(k, K.Clear), k.lanes.consumer.lane;
            && p < |k.lanes.lanes| && KernelOthers(k, k', p) && k'.controls == k.controls && k'.stages == k.stages
            && !K.ClearedAt(k, p) && K.ClearedAt(k', p) && k'.lanes == k.lanes && k'.open == k.open
            && k.lanes.lanes[p].read < |k.lanes.lanes[p].admitted|
  {
    hide K.Inv, K.WriterPromises, L.Inv;
    K.HeldCell(k);
    K.LaneAt(k, k.lanes.consumer.lane);
  }

  /** The other steps leave every lane, stage and control alone. */
  ghost predicate Still(k: K.State, k': K.State) {
    && k'.lanes.lanes == k.lanes.lanes && k'.lanes.admissions == k.lanes.admissions && k'.stages == k.stages
    && k'.controls == k.controls && k'.maximum == k.maximum && (k'.open ==> k.open)
    && (forall q :: K.ClearedAt(k', q) == K.ClearedAt(k, q))
  }

  lemma StillEffect(k: K.State, a: K.Action)
    requires K.Inv(k) && K.Enabled(k, a) && (a.Close? || a.Consume? || a.Check? || a.Quiesce?)
    ensures Still(k, K.Step(k, a))
  {
    hide K.Inv, K.WriterPromises, K.Valid, K.Scanned, L.HasHead;
    LanesInv(k);
  }

  /** An access to slot `p` of the ledger changes that slot alone. */
  lemma CreditEffect(c: C.State, p: nat, m: C.SlotMove)
    requires p < |c.slots|
    ensures var c' := C.Step(c, C.Action(p, m));
            && |c'.slots| == |c.slots| && (forall q :: 0 <= q < |c.slots| && q != p ==> c'.slots[q] == c.slots[q])
            && c'.slots[p] == (if C.CanMove(c.capacity, c.slots[p], m)
                               then C.Moved(c.central, c.slots[p], m, c.capacity).0 else c.slots[p])
  {
    hide C.CanMove, C.Moved;
  }

  lemma StaleShrinks(finishers: seq<Finisher>, p: nat, read: nat, read': nat)
    requires Stale(finishers, p, read') && read <= read'
    ensures Stale(finishers, p, read)
  {
    var i :| 0 <= i < |finishers| && StaleOn(finishers[i], p, read');
    assert StaleOn(finishers[i], p, read);
  }

  /* --- Every step keeps the invariant ---------------------------------------------------------------- */

  lemma ThisPlace(s: State, p: nat)
    requires Inv(s) && p < |s.callers|
    ensures ShapeOk(s) && PlaceAt(s, p) && Clean(s)
  {
    hide K.Inv, C.Inv, PlaceAt, FinishersOk;
  }

  lemma KernelParts(s: State, p: nat)
    requires Inv(s) && p < |s.callers|
    ensures K.StageOk(s.kernel.lanes.lanes[p], s.kernel.stages[p]) && L.PositionsOk(s.kernel.lanes.lanes[p])
    ensures K.ShapeOk(s.kernel) && K.TakingOk(s.kernel)
    ensures s.kernel.lanes.lanes[p].holder.Claimed? ==>
              && s.kernel.lanes.lanes[p].capacity > 0 && K.ClaimedCell(s.kernel, p) < |s.kernel.cells|
              && K.StageCell(s.kernel.stages[p], s.kernel.cells[K.ClaimedCell(s.kernel, p)], s.kernel.maximum)
  {
    hide K.Inv, C.Inv, Clean, L.Inv, K.PlacesOk;
    K.LaneAt(s.kernel, p);
    LanesInv(s.kernel);
    if s.kernel.lanes.lanes[p].holder.Claimed? {
      K.ClaimedStage(s.kernel.lanes.lanes[p], s.kernel.stages[p], s.kernel.cells, s.kernel.lanes.admissions,
                     s.kernel.maximum, K.ClearedAt(s.kernel, p));
    }
  }

  /** A lane is as full as its positions and its log say. */
  lemma SameLane(l: L.Lane, l': L.Lane, stage: K.Stage, stage': K.Stage, cleared: bool, shares: seq<C.Share>,
                 log: seq<L.Admission>)
    requires SharesOk(l, stage, cleared, shares, log) && l'.read == l.read && l'.admitted == l.admitted
    requires stage' == stage || (!stage.Installed? && !stage'.Installed?)
    ensures SharesOk(l', stage', cleared, shares, log)
  {
    var from := l.read + One(cleared);
    forall i: nat
      ensures OwnedAt(l', log, shares, from, i)
    {
      WindowAt(l, stage, cleared, shares, log, i);
    }
  }

  /** Bytes are counted for a reservation and for a commit in progress. */
  lemma CountedOwner(s: State, p: nat)
    requires Inv(s) && p < |s.callers|
    ensures var slot := s.credit.slots[p];
            && slot.logical >= 0 && C.SlotOk(slot)
            && (slot.owner.Reserved? || slot.owner.Shrunk? ==> slot.logical > 0)
            && (slot.reconciler.NoReconcile? || s.exposed[p] || slot.owner.Idle? || slot.owner.Forgotten?)
  {
    hide K.Inv, C.Inv, SharesOk, K.ClearedAt, Stale, Live, CallOk;
    C.LogicalNotNegative(s.credit, p);
    ThisPlace(s, p);
    LanesInv(s.kernel);
  }

  lemma StillClean(s: State, a: K.Action)
    requires Inv(s) && K.Enabled(s.kernel, a) && (a.Close? || a.Consume? || a.Check? || a.Quiesce?)
    ensures var s' := s.(kernel := K.Step(s.kernel, a)); ShapeOk(s') && Clean(s')
  {
    hide K.Inv, C.Inv, K.Step, K.ClearedAt, CallOk, OwnerOk, SharesOk, CallSafe, CreditSafe, Stale;
    StillEffect(s.kernel, a);
    var s' := s.(kernel := K.Step(s.kernel, a));
    forall p | 0 <= p < |s'.callers|
      ensures PlaceAt(s', p)
    {
      assert PlaceAt(s, p);
    }
    forall i | 0 <= i < |s'.finishers|
      ensures FinisherOk(s', s'.finishers[i])
    {
      assert FinisherOk(s, s.finishers[i]);
    }
  }

  lemma RegisterClean(s: State, p: nat)
    requires Inv(s) && p < |s.kernel.controls|
    ensures var s' := Step(s, Kernel(K.ControlStep(p, K.Register))); ShapeOk(s') && Clean(s')
  {
    hide K.Inv, C.Inv, K.Step, K.ClearedAt, OwnerOk, SharesOk, Clean, CreditSafe, Stale;
    ThisPlace(s, p);
    ControlEffect(s.kernel, p, K.Register);
    CleanFrame(s, Step(s, Kernel(K.ControlStep(p, K.Register))), p);
  }

  lemma ConfirmClean(s: State, p: nat)
    requires Inv(s) && Enabled(s, Confirm(p))
    ensures var s' := Step(s, Confirm(p)); ShapeOk(s') && Clean(s')
  {
    hide K.Inv, C.Inv, K.Step, K.ClearedAt, OwnerOk, SharesOk, Clean, CreditSafe, Stale;
    ThisPlace(s, p);
    ControlEffect(s.kernel, p, K.ConfirmRegistration);
    CleanFrame(s, Step(s, Confirm(p)), p);
  }

  lemma RetireClean(s: State, p: nat, generation: nat)
    requires Inv(s) && Enabled(s, Retire(p, generation))
    ensures var s' := Step(s, Retire(p, generation)); ShapeOk(s') && Clean(s')
  {
    hide K.Inv, C.Inv, K.Step, K.ClearedAt, OwnerOk, SharesOk, Clean, CreditSafe, Stale;
    ThisPlace(s, p);
    ControlEffect(s.kernel, p, K.Retire(generation));
    CleanFrame(s, Step(s, Retire(p, generation)), p);
  }

  lemma LaneClean(s: State, p: nat, m: L.LaneMove)
    requires Inv(s) && K.Enabled(s.kernel, K.LaneStep(p, m)) && !m.ClearFlag?
    ensures var s' := Step(s, Kernel(K.LaneStep(p, m))); ShapeOk(s') && Clean(s')
  {
    hide K.Inv, C.Inv, K.Step, K.ClearedAt, OwnerOk, SharesOk, Clean, CallOk, CreditSafe, Stale, L.PositionsOk;
    ThisPlace(s, p);
    KernelParts(s, p);
    LaneEffect(s.kernel, p, m);
    var s' := Step(s, Kernel(K.LaneStep(p, m)));
    SameLane(s.kernel.lanes.lanes[p], s'.kernel.lanes.lanes[p], s.kernel.stages[p], s'.kernel.stages[p],
             K.ClearedAt(s.kernel, p), s.credit.slots[p].shares, s.kernel.lanes.admissions);
    CleanFrame(s, s', p);
  }

  lemma EndCallClean(s: State, p: nat)
    requires Inv(s) && Enabled(s, EndCall(p))
    ensures var s' := Step(s, EndCall(p)); ShapeOk(s') && Clean(s')
  {
    hide K.Inv, C.Inv, K.Step, K.ClearedAt, SharesOk, Clean, CreditSafe, Stale, L.PositionsOk;
    ThisPlace(s, p);
    KernelParts(s, p);
    LaneEffect(s.kernel, p, L.ClearFlag);
    var s' := Step(s, EndCall(p));
    SameLane(s.kernel.lanes.lanes[p], s'.kernel.lanes.lanes[p], s.kernel.stages[p], s'.kernel.stages[p],
             K.ClearedAt(s.kernel, p), s.credit.slots[p].shares, s.kernel.lanes.admissions);
    CleanFrame(s, s', p);
  }

  lemma GiveUpClean(s: State, p: nat)
    requires Inv(s) && Enabled(s, GiveUp(p))
    ensures var s' := Step(s, GiveUp(p)); ShapeOk(s') && Clean(s')
  {
    hide K.Inv, C.Inv, K.Step, K.ClearedAt, SharesOk, Clean, CreditSafe, Stale;
    ThisPlace(s, p);
    GiveUpEffect(s.kernel, p);
    var s' := Step(s, GiveUp(p));
    SameLane(s.kernel.lanes.lanes[p], s'.kernel.lanes.lanes[p], s.kernel.stages[p], s'.kernel.stages[p],
             K.ClearedAt(s.kernel, p), s.credit.slots[p].shares, s.kernel.lanes.admissions);
    CleanFrame(s, s', p);
  }

  lemma WriteClean(s: State, p: nat)
    requires Inv(s) && K.Enabled(s.kernel, K.WriteCell(p))
    ensures var s' := Step(s, Kernel(K.WriteCell(p))); ShapeOk(s') && Clean(s')
  {
    hide K.Inv, C.Inv, K.Step, K.ClearedAt, SharesOk, Clean, CallOk, OwnerOk, CreditSafe, Stale;
    ThisPlace(s, p);
    WriteEffect(s.kernel, p);
    var s' := Step(s, Kernel(K.WriteCell(p)));
    SameLane(s.kernel.lanes.lanes[p], s'.kernel.lanes.lanes[p], s.kernel.stages[p], s'.kernel.stages[p],
             K.ClearedAt(s.kernel, p), s.credit.slots[p].shares, s.kernel.lanes.admissions);
    CleanFrame(s, s', p);
  }

  /** The installed record's share becomes that of an admitted one. */
  lemma AdmittedShare(l: L.Lane, l': L.Lane, stage: K.Stage, stage': K.Stage, cleared: bool, shares: seq<C.Share>,
                      log: seq<L.Admission>, log': seq<L.Admission>)
    requires SharesOk(l, stage, cleared, shares, log) && stage.Installed? && !stage'.Installed?
    requires l'.read == l.read && l'.admitted == l.admitted + [|log|] && log <= log' && |log'| == |log| + 1
    requires ShareOf(log'[|log|].record) == C.Owned(stage.size.serialized, stage.size.charge)
    ensures SharesOk(l', stage', cleared, shares, log')
  {
    var from := l.read + One(cleared);
    forall i: nat
      ensures OwnedAt(l', log', shares, from, i)
    {
      WindowAt(l, stage, cleared, shares, log, i);
    }
  }

  lemma PublishClean(s: State, p: nat)
    requires Inv(s) && K.Enabled(s.kernel, K.PublishRecord(p))
    ensures var s' := Step(s, Kernel(K.PublishRecord(p))); ShapeOk(s') && Clean(s')
  {
    hide K.Inv, C.Inv, K.Step, K.ClearedAt, SharesOk, Clean, CreditSafe, Stale;
    ThisPlace(s, p);
    PublishEffect(s.kernel, p);
    var s' := Step(s, Kernel(K.PublishRecord(p)));
    AdmittedShare(s.kernel.lanes.lanes[p], s'.kernel.lanes.lanes[p], s.kernel.stages[p], s'.kernel.stages[p],
                  K.ClearedAt(s.kernel, p), s.credit.slots[p].shares, s.kernel.lanes.admissions,
                  s'.kernel.lanes.admissions);
    CleanFrame(s, s', p);
  }

  lemma AcknowledgedShares(l: L.Lane, l': L.Lane, stage: K.Stage, shares: seq<C.Share>, log: seq<L.Admission>)
    requires SharesOk(l, stage, true, shares, log) && !HeadReleasing(shares)
    requires l'.read == l.read + 1 && l'.admitted == l.admitted
    ensures SharesOk(l', stage, false, shares, log)
  {
    var from := l'.read;
    forall i: nat
      ensures OwnedAt(l', log, shares, from, i)
    {
      WindowAt(l, stage, true, shares, log, i);
    }
  }

  lemma AcknowledgeClean(s: State)
    requires Inv(s) && K.Enabled(s.kernel, K.Acknowledge) && !Returning(s)
    ensures var s' := Step(s, Kernel(K.Acknowledge)); ShapeOk(s') && Clean(s')
  {
    hide K.Inv, C.Inv, K.Step, SharesOk, Clean, CallOk, OwnerOk, CreditSafe, Stale;
    AcknowledgeEffect(s.kernel);
    var s', p := Step(s, Kernel(K.Acknowledge)), s.kernel.lanes.consumer.lane;
    ThisPlace(s, p);
    AcknowledgedShares(s.kernel.lanes.lanes[p], s'.kernel.lanes.lanes[p], s.kernel.stages[p], s.credit.slots[p].shares,
                       s.kernel.lanes.admissions);
    if Stale(s.finishers, p, s'.kernel.lanes.lanes[p].read) {
      StaleShrinks(s.finishers, p, s.kernel.lanes.lanes[p].read, s'.kernel.lanes.lanes[p].read);
    }
    CleanFrame(s, s', p);
  }

  lemma CallClean(s: State, p: nat, generation: nat)
    requires Inv(s) && Enabled(s, Call(p, generation))
    ensures var s' := Step(s, Call(p, generation)); ShapeOk(s') && Clean(s')
  {
    hide K.Inv, C.Inv, K.Step, K.ClearedAt, SharesOk, Clean, CreditSafe, Stale;
    ThisPlace(s, p);
    ProducerEffect(s.kernel, p, K.CheckAdmission);
    var s' := Step(s, Call(p, generation));
    SameLane(s.kernel.lanes.lanes[p], s'.kernel.lanes.lanes[p], s.kernel.stages[p], s'.kernel.stages[p],
             K.ClearedAt(s.kernel, p), s.credit.slots[p].shares, s.kernel.lanes.admissions);
    CleanFrame(s, s', p);
  }

  /** A check or a part of the build: the stage moves on with what the call holds. */
  lemma ProducedStage(stage: K.Stage, cell: K.Cell, c: K.Control, open: bool, maximum: nat, m: K.ProducerMove,
                      owner: C.Owner, holder: L.Holder, caller: Option<nat>, issued: nat, stale: bool)
    requires CallOk(c, stage, caller, issued) && OwnerOk(stage, owner, maximum) && caller.Some?
    requires !m.CheckAdmission? && !m.ReserveCredit? && !m.CommitRecord?
    requires m.CheckGeneration? ==> m.generation == caller.value
    ensures var stage' := K.Produce(stage, cell, c, open, maximum, m).stage;
            && CallOk(c, stage', caller, issued) && OwnerOk(stage', owner, maximum)
            && (CallSafe(c, stage, holder, caller, stale) ==> CallSafe(c, stage', holder, caller, stale))
            && (stage' == stage || (!stage.Installed? && !stage'.Installed?))
  {}

  lemma ProduceClean(s: State, p: nat, m: K.ProducerMove)
    requires Inv(s) && Enabled(s, Produce(p, m))
    ensures var s' := Step(s, Produce(p, m)); ShapeOk(s') && Clean(s')
  {
    hide K.Inv, C.Inv, K.Step, K.ClearedAt, SharesOk, Clean, CallOk, OwnerOk, K.Produce, K.WriterPromises, CallSafe,
         CreditSafe, Stale;
    ThisPlace(s, p);
    ProducerEffect(s.kernel, p, m);
    var s' := Step(s, Produce(p, m));
    ProducedStage(s.kernel.stages[p], s.kernel.cells[K.ClaimedCell(s.kernel, p)], s.kernel.controls[p], s.kernel.open,
                  s.kernel.maximum, m, s.credit.slots[p].owner, s.kernel.lanes.lanes[p].holder, s.callers[p],
                  s.issued[p], Stale(s.finishers, p, s.kernel.lanes.lanes[p].read));
    SameLane(s.kernel.lanes.lanes[p], s'.kernel.lanes.lanes[p], s.kernel.stages[p], s'.kernel.stages[p],
             K.ClearedAt(s.kernel, p), s.credit.slots[p].shares, s.kernel.lanes.admissions);
    CleanFrame(s, s', p);
  }

  /** The holder's accesses to the ledger keep what the call holds in step with its stage, and touch the local credit
      only before any bytes are counted. */
  lemma CreditedOwner(stage: K.Stage, maximum: nat, m: C.SlotMove, slot: C.Slot, capacity: nat, central: int)
    requires OwnerOk(stage, slot.owner, maximum) && Fits(stage, maximum, m) && C.CanMove(capacity, slot, m)
    requires stage.Finished? ==> K.StoredSize(stage.size, maximum) && AccountingCharge(maximum) != 0
    requires slot.owner.Reserved? || slot.owner.Shrunk? ==> slot.logical > 0
    ensures var slot' := C.Moved(central, slot, m, capacity).0;
            && OwnerOk(stage, slot'.owner, maximum) && slot'.shares == slot.shares
            && slot'.reconciler == slot.reconciler
            && (!stage.Admitted? ==> slot'.local == slot.local && (slot.logical == 0 ==> slot'.logical == 0))
  {
    if stage.Finished? {
      ChargeMonotone(stage.size.serialized, maximum);
    }
  }

  lemma LimitCharged(k: K.State)
    requires K.ShapeOk(k)
    ensures AccountingCharge(k.maximum) != 0
  {}

  lemma CreditClean(s: State, p: nat, m: C.SlotMove)
    requires Inv(s) && Enabled(s, Credit(p, m))
    ensures var s' := Step(s, Credit(p, m)); ShapeOk(s') && Clean(s')
  {
    hide K.Inv, C.Inv, C.Step, K.ClearedAt, SharesOk, Clean, OwnerOk, C.Moved, C.CanMove, K.StageOk, L.PositionsOk,
         Stale, CallOk, C.SlotOk;
    ThisPlace(s, p);
    KernelParts(s, p);
    LimitCharged(s.kernel);
    CreditEffect(s.credit, p, m);
    CountedOwner(s, p);
    var s' := Step(s, Credit(p, m));
    if C.CanMove(s.credit.capacity, s.credit.slots[p], m) {
      if s.kernel.stages[p].Finished? {
        FinishedSize(s, p);
      }
      CreditedOwner(s.kernel.stages[p], s.kernel.maximum, m, s.credit.slots[p], s.credit.capacity, s.credit.central);
    }
    CleanFrame(s, s', p);
  }

  lemma FinishedSize(s: State, p: nat)
    requires Inv(s) && p < |s.callers| && s.kernel.stages[p].Finished?
    ensures K.StoredSize(s.kernel.stages[p].size, s.kernel.maximum) && s.kernel.lanes.lanes[p].holder.Claimed?
  {
    hide K.Inv, C.Inv, Clean;
    KernelParts(s, p);
  }

  lemma CountChargeClean(s: State, p: nat)
    requires Inv(s) && Enabled(s, CountCharge(p))
    ensures var s' := Step(s, CountCharge(p)); ShapeOk(s') && Clean(s')
  {
    hide K.Inv, C.Inv, C.Step, K.Step, K.ClearedAt, SharesOk, Clean, Stale;
    ThisPlace(s, p);
    ProducerEffect(s.kernel, p, K.ReserveCredit(true));
    CreditEffect(s.credit, p, C.CountLogical);
    var s' := Step(s, CountCharge(p));
    SameLane(s.kernel.lanes.lanes[p], s'.kernel.lanes.lanes[p], s.kernel.stages[p], s'.kernel.stages[p],
             K.ClearedAt(s.kernel, p), s.credit.slots[p].shares, s.kernel.lanes.admissions);
    CleanFrame(s, s', p);
  }

  lemma RefuseCreditClean(s: State, p: nat)
    requires Inv(s) && Enabled(s, RefuseCredit(p))
    ensures var s' := Step(s, RefuseCredit(p)); ShapeOk(s') && Clean(s')
  {
    hide K.Inv, C.Inv, K.Step, K.ClearedAt, SharesOk, Clean, CreditSafe, Stale;
    ThisPlace(s, p);
    ProducerEffect(s.kernel, p, K.ReserveCredit(false));
    var s' := Step(s, RefuseCredit(p));
    SameLane(s.kernel.lanes.lanes[p], s'.kernel.lanes.lanes[p], s.kernel.stages[p], s'.kernel.stages[p],
             K.ClearedAt(s.kernel, p), s.credit.slots[p].shares, s.kernel.lanes.admissions);
    CleanFrame(s, s', p);
  }

  /** The committed record's share is the last. */
  lemma InstalledShare(l: L.Lane, stage: K.Stage, stage': K.Stage, cleared: bool, shares: seq<C.Share>,
                       log: seq<L.Admission>)
    requires SharesOk(l, stage, cleared, shares, log) && !stage.Installed? && stage'.Installed?
    requires stage'.size.serialized > 0
    ensures SharesOk(l, stage', cleared, shares + [C.Owned(stage'.size.serialized, stage'.size.charge)], log)
  {
    var from := l.read + One(cleared);
    var shares' := shares + [C.Owned(stage'.size.serialized, stage'.size.charge)];
    assert HeadReleasing(shares') == HeadReleasing(shares);
    forall i: nat
      ensures OwnedAt(l, log, shares', from, i)
    {
      WindowAt(l, stage, cleared, shares, log, i);
    }
  }

  lemma InstallClean(s: State, p: nat)
    requires Inv(s) && Enabled(s, Install(p))
    ensures var s' := Step(s, Install(p)); ShapeOk(s') && Clean(s')
  {
    hide K.Inv, C.Inv, C.Step, K.Step, K.ClearedAt, SharesOk, Clean, K.StageOk, L.PositionsOk, Stale, C.SlotOk;
    ThisPlace(s, p);
    KernelParts(s, p);
    LimitCharged(s.kernel);
    FinishedSize(s, p);
    CountedOwner(s, p);
    ChargeMonotone(s.kernel.stages[p].size.serialized, s.kernel.maximum);
    ProducerEffect(s.kernel, p, K.CommitRecord);
    CreditEffect(s.credit, p, C.SettleCommit);
    var s' := Step(s, Install(p));
    InstalledShare(s.kernel.lanes.lanes[p], s.kernel.stages[p], s'.kernel.stages[p], K.ClearedAt(s.kernel, p),
                   s.credit.slots[p].shares, s.kernel.lanes.admissions);
    CleanFrame(s, s', p);
  }

  /** The first share is the one of the record the consumer empties. */
  lemma ReleasedShare(l: L.Lane, stage: K.Stage, shares: seq<C.Share>, log: seq<L.Admission>)
    requires SharesOk(l, stage, false, shares, log) && l.read < |l.admitted|
    ensures shares != [] && shares[0].Owned? && shares[0].retained > 0
    ensures SharesOk(l, stage, true, shares[0 := C.Releasing(shares[0].charge)], log)
  {
    var shares' := shares[0 := C.Releasing(shares[0].charge)];
    var from := l.read + 1;
    forall i: nat
      ensures OwnedAt(l, log, shares', from, i)
    {
      WindowAt(l, stage, false, shares, log, i);
    }
  }

  lemma EmptyClean(s: State)
    requires Inv(s) && Enabled(s, EmptyCell)
    ensures var s' := Step(s, EmptyCell); ShapeOk(s') && Clean(s')
  {
    hide K.Inv, C.Inv, C.Step, K.Step, K.ClearedAt, SharesOk, Clean, CallOk, OwnerOk, CallSafe, Stale, C.SlotOk;
    ClearEffect(s.kernel);
    var s', p := Step(s, EmptyCell), s.kernel.lanes.consumer.lane;
    ThisPlace(s, p);
    ReleasedShare(s.kernel.lanes.lanes[p], s.kernel.stages[p], s.credit.slots[p].shares, s.kernel.lanes.admissions);
    CreditEffect(s.credit, p, C.Release(0));
    C.InvStep(s.credit, C.Action(p, C.Release(0)));
    C.LogicalNotNegative(s'.credit, p);
    CleanFrame(s, s', p);
  }

  lemma ReturnedShare(l: L.Lane, stage: K.Stage, shares: seq<C.Share>, log: seq<L.Admission>)
    requires SharesOk(l, stage, true, shares, log) && HeadReleasing(shares)
    ensures SharesOk(l, stage, true, shares[..0] + shares[1..], log)
  {
    var shares' := shares[..0] + shares[1..];
    assert !HeadReleasing(shares');
    var from := l.read + 1;
    forall i: nat
      ensures OwnedAt(l, log, shares', from, i)
    {
      WindowAt(l, stage, true, shares, log, i);
    }
  }

  lemma ReturnClean(s: State)
    requires Inv(s) && Returning(s)
    ensures var s' := Step(s, ReturnCharge); ShapeOk(s') && Clean(s')
  {
    hide K.Inv, C.Inv, C.Step, SharesOk, Clean, CallOk, OwnerOk, CallSafe, Stale;
    var s', p := Step(s, ReturnCharge), s.kernel.lanes.consumer.lane;
    ThisPlace(s, p);
    ReturnedShare(s.kernel.lanes.lanes[p], s.kernel.stages[p], s.credit.slots[p].shares, s.kernel.lanes.admissions);
    CreditEffect(s.credit, p, C.ReturnShare(0));
    CleanFrame(s, s', p);
  }

  /** Nobody but finisher `i` has slot `p` in its hands. */
  predicate NoOther(s: State, i: nat, p: nat) {
    forall j :: 0 <= j < |s.finishers| && j != i && Holds(s.finishers[j]) ==> s.finishers[j].slot != p
  }

  /** Finisher `i` moves on with slot `p`. */
  lemma FinisherFrame(s: State, s': State, i: nat, f: Finisher, p: nat)
    requires ShapeOk(s) && ShapeOk(s') && FinishersOk(s) && Others(s, s', p) && i < |s.finishers| && p < |s.callers|
    requires s'.finishers == s.finishers[i := f] && FinisherOk(s', f) && NoOther(s, i, p)
    requires Holds(f) ==> f.slot == p
    requires s'.kernel.lanes == s.kernel.lanes
    ensures FinishersOk(s')
  {
    hide K.ClearedAt;
    forall j | 0 <= j < |s'.finishers|
      ensures FinisherOk(s', s'.finishers[j])
    {
      if j != i {
        assert FinisherOk(s, s.finishers[j]);
      }
    }
  }

  lemma HoldsAlone(s: State, i: nat, p: nat)
    requires ShapeOk(s) && FinishersOk(s) && i < |s.finishers| && p < |s.callers|
    requires (Holds(s.finishers[i]) && s.finishers[i].slot == p) || !s.kernel.controls[p].state.Reconciling?
    ensures NoOther(s, i, p)
  {
    forall j | 0 <= j < |s.finishers| && j != i && Holds(s.finishers[j])
      ensures s.finishers[j].slot != p
    {
      assert FinisherOk(s, s.finishers[j]);
    }
  }

  /** A finisher that moves on overlooks a call only if it did before. */
  lemma StaleMoved(finishers: seq<Finisher>, i: nat, f: Finisher, q: nat, read: nat)
    requires i < |finishers| && (StaleOn(f, q, read) ==> StaleOn(finishers[i], q, read))
    ensures Stale(finishers[i := f], q, read) ==> Stale(finishers, q, read)
  {
    hide StaleOn;
    if Stale(finishers[i := f], q, read) {
      var j :| 0 <= j < |finishers| && StaleOn(finishers[i := f][j], q, read);
      assert StaleOn(finishers[j], q, read);
    }
  }

  lemma StaleFramed(s: State, s': State, i: nat, f: Finisher, p: nat)
    requires ShapeOk(s) && i < |s.finishers| && s'.finishers == s.finishers[i := f]
    requires !f.Away? ==> f.slot == p
    ensures StaleFrame(s, s', p)
  {
    hide Stale;
    forall q | 0 <= q < |s.callers| && q != p
      ensures Stale(s'.finishers, q, s.kernel.lanes.lanes[q].read) ==>
              Stale(s.finishers, q, s.kernel.lanes.lanes[q].read)
    {
      StaleMoved(s.finishers, i, f, q, s.kernel.lanes.lanes[q].read);
    }
  }

  /** A test that only the finisher itself remembers. It newly overlooks slot `p` only if no call there has seen the
      slot active. */
  lemma TestClean(s: State, i: nat, f: Finisher, p: nat)
    requires ShapeOk(s) && Clean(s) && i < |s.finishers| && FinisherOk(s, f) && p < |s.callers|
    requires !f.Away? ==> f.slot == p
    requires Holds(f) ==> Holds(s.finishers[i]) && s.finishers[i].slot == f.slot
    requires var read := s.kernel.lanes.lanes[p].read;
             StaleOn(f, p, read) ==>
               || StaleOn(s.finishers[i], p, read)
               || !Uncounted(s.kernel.controls[p], s.kernel.stages[p], s.callers[p])
    ensures Clean(s.(finishers := s.finishers[i := f]))
  {
    hide PlaceOk, K.ClearedAt, Stale, StaleOn, Live, Uncounted, CreditSafe;
    var s' := s.(finishers := s.finishers[i := f]);
    StaleFramed(s, s', i, f, p);
    assert PlaceAt(s', p) by {
      assert PlaceAt(s, p);
      if StaleOn(f, p, s.kernel.lanes.lanes[p].read) ==> StaleOn(s.finishers[i], p, s.kernel.lanes.lanes[p].read) {
        StaleMoved(s.finishers, i, f, p, s.kernel.lanes.lanes[p].read);
      }
    }
    PlacesFrame(s, s', p);
    forall j | 0 <= j < |s'.finishers|
      ensures FinisherOk(s', s'.finishers[j])
    {
      if j != i {
        assert FinisherOk(s, s.finishers[j]);
      }
    }
  }

  /** What a slot's stores do to its call: none of them finds one it could harm. */
  lemma StoredControl(c: K.Control, open: bool, m: K.ControlMove, stage: K.Stage, caller: Option<nat>, issued: nat)
    requires CallOk(c, stage, caller, issued)
    requires m.BeginReconcile? || m.RefuseReconcile? || m.AdvanceGeneration? ||
             (m.ReleaseSlot? && issued < c.generation)
    ensures CallOk(K.Controlled(c, open, m), stage, caller, issued)
  {}

  lemma StoredSafe(c: K.Control, open: bool, m: K.ControlMove, stage: K.Stage, holder: L.Holder, caller: Option<nat>,
                   issued: nat, stale: bool, stale': bool)
    requires CallOk(c, stage, caller, issued) && CallSafe(c, stage, holder, caller, stale)
    requires m.BeginReconcile? || m.RefuseReconcile? || m.AdvanceGeneration? || m.ReleaseSlot?
    requires m.BeginReconcile? ==> c.state.Retiring? && stale
    requires m.AdvanceGeneration? ==> c.state.Reconciling? && !Live(stage, holder)
    requires m.ReleaseSlot? ==> issued < c.generation
    requires m.RefuseReconcile? ==> c.state.Reconciling?
    ensures CallSafe(K.Controlled(c, open, m), stage, holder, caller, stale')
  {}

  lemma IssuedBelow(c: K.Control, stage: K.Stage, caller: Option<nat>, issued: nat)
    requires CallOk(c, stage, caller, issued)
    ensures issued <= c.generation
  {}

  /** Where no bytes are retained no call on an unexposed slot in a finisher's hands is live. */
  lemma NotLive(s: State, p: nat)
    requires Inv(s) && p < |s.callers| && !s.exposed[p] && s.credit.slots[p].logical == 0
    requires s.kernel.controls[p].state.Reconciling?
    ensures !Live(s.kernel.stages[p], s.kernel.lanes.lanes[p].holder)
    ensures AllConsumed(s.kernel, p) && !s.kernel.stages[p].Installed?
    ensures s.credit.slots[p].owner.Idle? || s.credit.slots[p].owner.Forgotten?
  {
    hide K.Inv, C.Inv, K.ClearedAt, SharesOk, Clean, Stale, C.SlotOk, K.StageOk, CallOk;
    ThisPlace(s, p);
    CountedOwner(s, p);
    NothingRetained(s, p);
    MidAdmitted(s, p);
  }

  /** A record in the middle of its publication is admitted and not consumed. */
  lemma MidAdmitted(s: State, p: nat)
    requires Inv(s) && p < |s.callers| && AllConsumed(s.kernel, p)
    ensures !L.MidPublication(s.kernel.lanes.lanes[p].holder)
  {
    hide K.Inv, C.Inv, Clean;
    KernelParts(s, p);
    if K.ClearedAt(s.kernel, p) {
      K.HeldCell(s.kernel);
    }
  }

  /** Every record admitted on the lane has been given to the consumer and emptied. */
  predicate AllConsumed(k: K.State, p: nat)
    requires p < |k.lanes.lanes|
  {
    |k.lanes.lanes[p].admitted| == k.lanes.lanes[p].read + One(K.ClearedAt(k, p))
  }

  /** Without retained bytes nothing admitted is left and nothing is on its way in. */
  lemma NothingRetained(s: State, p: nat)
    requires Inv(s) && p < |s.callers| && s.credit.slots[p].logical == 0
    ensures AllConsumed(s.kernel, p) && !s.kernel.stages[p].Installed?
  {
    hide K.Inv, K.ClearedAt, CallOk, OwnerOk, Clean, SafeAt;
    ThisPlace(s, p);
    var slot := s.credit.slots[p];
    assert C.SlotOk(slot);
    hide C.Inv;
    if |slot.shares| > One(HeadReleasing(slot.shares)) {
      var j := One(HeadReleasing(slot.shares));
      assert slot.shares[j].Owned?;
      C.ShareAt(slot.shares, j);
    }
  }

  lemma StoreClean(s: State, i: nat, m: FinisherMove)
    requires Inv(s) && i < |s.finishers| && FinisherOk(s, s.finishers[i])
    requires Control(s.finishers[i], m).Some?
    requires m.Exchange? ==> s.kernel.controls[s.finishers[i].slot].state.Retiring?
    ensures var s' := Finished(s, i, m); ShapeOk(s') && Clean(s')
  {
    hide K.Inv, C.Inv, K.Step, K.ClearedAt, OwnerOk, SharesOk, CallOk, Clean, Stale, CallSafe, CreditSafe, Live;
    var f, p := s.finishers[i], s.finishers[i].slot;
    var s', c := Finished(s, i, m), Control(s.finishers[i], m).value;
    ThisPlace(s, p);
    ControlEffect(s.kernel, p, c);
    IssuedBelow(s.kernel.controls[p], s.kernel.stages[p], s.callers[p], s.issued[p]);
    StoredControl(s.kernel.controls[p], s.kernel.open, c, s.kernel.stages[p], s.callers[p], s.issued[p]);
    StoreSafe(s, i, m);
    CleanParts(s);
    StaleFramed(s, s', i, s'.finishers[i], p);
    PlacesFrame(s, s', p);
    HoldsAlone(s, i, p);
    FinisherFrame(s, s', i, s'.finishers[i], p);
    CleanWhole(s');
  }

  lemma StoreSafe(s: State, i: nat, m: FinisherMove)
    requires Inv(s) && i < |s.finishers| && FinisherOk(s, s.finishers[i])
    requires Control(s.finishers[i], m).Some?
    requires m.Exchange? ==> s.kernel.controls[s.finishers[i].slot].state.Retiring?
    ensures var p := s.finishers[i].slot; var s' := Finished(s, i, m);
            !s.exposed[p] ==>
              CallSafe(K.Controlled(s.kernel.controls[p], s.kernel.open, Control(s.finishers[i], m).value),
                       s.kernel.stages[p], s.kernel.lanes.lanes[p].holder, s.callers[p],
                       Stale(s'.finishers, p, s.kernel.lanes.lanes[p].read))
  {
    hide K.Inv, C.Inv, K.Step, K.ClearedAt, OwnerOk, SharesOk, CallOk, Clean, Stale, CallSafe, Live;
    var f, p := s.finishers[i], s.finishers[i].slot;
    if !s.exposed[p] {
      ThisPlace(s, p);
      if m.Exchange? {
        StaleHere(s.finishers, i, p, s.kernel.lanes.lanes[p].read);
      }
      if m.Advance? {
        NotLive(s, p);
      }
      StoredSafe(s.kernel.controls[p], s.kernel.open, Control(f, m).value, s.kernel.stages[p],
                 s.kernel.lanes.lanes[p].holder, s.callers[p], s.issued[p],
                 Stale(s.finishers, p, s.kernel.lanes.lanes[p].read),
                 Stale(Finished(s, i, m).finishers, p, s.kernel.lanes.lanes[p].read));
    }
  }

  lemma StaleHere(finishers: seq<Finisher>, i: nat, p: nat, read: nat)
    requires i < |finishers| && StaleOn(finishers[i], p, read)
    ensures Stale(finishers, p, read)
  {
    hide StaleOn;
  }

  lemma CleanParts(s: State)
    requires ShapeOk(s) && Clean(s)
    ensures FinishersOk(s) && forall q :: 0 <= q < |s.callers| ==> PlaceAt(s, q)
  {
    hide PlaceAt, FinishersOk;
  }

  lemma CleanWhole(s: State)
    requires ShapeOk(s) && FinishersOk(s) && forall q :: 0 <= q < |s.callers| ==> PlaceAt(s, q)
    ensures Clean(s)
  {
    hide PlaceAt, FinishersOk;
  }

  /** An exchange that fails leaves the slot as it was. */
  lemma LostClean(s: State, i: nat)
    requires Inv(s) && i < |s.finishers| && FinisherOk(s, s.finishers[i]) && s.finishers[i].Drained?
    requires !s.kernel.controls[s.finishers[i].slot].state.Retiring?
    ensures var s' := Finished(s, i, Exchange); ShapeOk(s') && Clean(s')
  {
    hide K.Inv, C.Inv, K.Step, K.ClearedAt, OwnerOk, SharesOk, CallOk, Clean, Stale, CallSafe, CreditSafe;
    var p := s.finishers[i].slot;
    ThisPlace(s, p);
    ControlEffect(s.kernel, p, K.BeginReconcile);
    var m := s.(kernel := K.Step(s.kernel, K.ControlStep(p, K.BeginReconcile)));
    CleanFrame(s, m, p);
    TestClean(m, i, Away, p);
  }

  /** An access of the reconciliation. */
  lemma ReconciledSlot(slot: C.Slot, m: C.SlotMove, capacity: nat, central: int)
    requires C.CanMove(capacity, slot, m) && (m.ReconcileTest? || CreditMove(m))
    ensures var slot' := C.Moved(central, slot, m, capacity).0;
            && slot'.owner == slot.owner && slot'.shares == slot.shares && slot'.logical == slot.logical
            && (m.ReconcileTest? ==> slot.reconciler.NoReconcile? && slot.logical == 0 && slot'.reconciler.Tested?)
            && (!m.ReconcileTest? ==> !slot.reconciler.NoReconcile?)
            && (CreditSafe(slot) ==> CreditSafe(slot'))
            && (slot'.reconciler.NoReconcile? ==> slot'.local == 0)
  {}

  lemma MoveCreditClean(s: State, i: nat, m: FinisherMove)
    requires Inv(s) && i < |s.finishers| && FinisherOk(s, s.finishers[i])
    requires Ledger(s.finishers[i], m).Some? && Comes(s, s.finishers[i].slot, Ledger(s.finishers[i], m).value)
    requires m.MoveCredit? ==> CreditMove(m.access)
    ensures var s' := Finished(s, i, m); ShapeOk(s') && Clean(s')
  {
    hide K.Inv, C.Inv, C.Step, C.CanMove, C.Moved, K.ClearedAt, OwnerOk, SharesOk, CallOk, Clean, Stale, CallSafe;
    var p, l := s.finishers[i].slot, Ledger(s.finishers[i], m).value;
    var s' := Finished(s, i, m);
    ThisPlace(s, p);
    CreditEffect(s.credit, p, l);
    ReconciledSlot(s.credit.slots[p], l, s.credit.capacity, s.credit.central);
    StaleMoved(s.finishers, i, s'.finishers[i], p, s.kernel.lanes.lanes[p].read);
    if !s.exposed[p] {
      StaleWeakens(s, p, s'.finishers);
    }
    CleanParts(s);
    StaleFramed(s, s', i, s'.finishers[i], p);
    PlacesFrame(s, s', p);
    HoldsAlone(s, i, p);
    FinisherFrame(s, s', i, s'.finishers[i], p);
    CleanWhole(s');
  }

  /** Fewer finishers have overlooked the call. */
  lemma StaleWeakens(s: State, p: nat, finishers: seq<Finisher>)
    requires ShapeOk(s) && p < |s.callers| && SafeAt(s, p) && !s.exposed[p]
    requires var read := s.kernel.lanes.lanes[p].read; Stale(finishers, p, read) ==> Stale(s.finishers, p, read)
    ensures CallSafe(s.kernel.controls[p], s.kernel.stages[p], s.kernel.lanes.lanes[p].holder, s.callers[p],
                     Stale(finishers, p, s.kernel.lanes.lanes[p].read))
  {
    hide Stale, Live, Uncounted;
  }

  lemma FinishClean(s: State, i: nat, m: FinisherMove)
    requires Inv(s) && Enabled(s, Finish(i, m))
    ensures var s' := Step(s, Finish(i, m)); ShapeOk(s') && Clean(s')
  {
    hide K.Inv, C.Inv, C.Step, K.Step, K.ClearedAt, PlaceAt, Clean, C.CanMove;
    FinisherAt(s, i);
    var f := s.finishers[i];
    if Control(f, m).Some? {
      if m.Exchange? && !s.kernel.controls[f.slot].state.Retiring? {
        LostClean(s, i);
      } else {
        StoreClean(s, i, m);
      }
    } else if Ledger(f, m).Some? && Comes(s, f.slot, Ledger(f, m).value) {
      MoveCreditClean(s, i, m);
    } else {
      QuietTest(s, i, m);
    }
  }

  /** What a test that stores nothing leaves in the finisher. */
  lemma Tested(s: State, f: Finisher, m: FinisherMove, f': Finisher, p: nat)
    requires Inv(s) && ShapeOk(s) && FinisherOk(s, f) && f' == Next(s, f, m) != f && p < |s.callers|
    requires Control(f, m).None? && (Ledger(f, m).Some? ==> !Comes(s, f.slot, Ledger(f, m).value))
    requires (!f'.Away? ==> f'.slot == p) && (m.Enter? ==> m.slot < |s.kernel.controls|)
    ensures FinisherOk(s, f') && (Holds(f') ==> Holds(f) && f.slot == f'.slot)
    ensures var read := s.kernel.lanes.lanes[p].read;
            StaleOn(f', p, read) ==>
              || StaleOn(f, p, read)
              || !Uncounted(s.kernel.controls[p], s.kernel.stages[p], s.callers[p])
  {
    hide K.Inv, C.Inv, Clean, K.StageCell, K.ClearedAt;
    KernelParts(s, p);
  }

  lemma QuietTest(s: State, i: nat, m: FinisherMove)
    requires Inv(s) && Enabled(s, Finish(i, m)) && FinisherOk(s, s.finishers[i]) && Control(s.finishers[i], m).None?
    requires Ledger(s.finishers[i], m).Some? ==> !Comes(s, s.finishers[i].slot, Ledger(s.finishers[i], m).value)
    ensures var s' := Step(s, Finish(i, m)); ShapeOk(s') && Clean(s')
  {
    hide K.Inv, C.Inv, K.Step, Clean, FinisherOk, Uncounted, StaleOn, Holds, C.Moved, C.Recorded;
    CleanAll(s);
    var f := s.finishers[i];
    var f' := Next(s, f, m);
    SlotInRange(s, f, m);
    if f' == f {
      assert Step(s, Finish(i, m)) == s;
    } else {
      var p := if f'.Away? then 0 else f'.slot;
      Tested(s, f, m, f', p);
      TestClean(s, i, f', p);
      assert Step(s, Finish(i, m)) == s.(finishers := s.finishers[i := f']);
    }
  }

  lemma SlotInRange(s: State, f: Finisher, m: FinisherMove)
    requires ShapeOk(s) && FinisherOk(s, f) && (m.Enter? ==> m.slot < |s.kernel.controls|)
    ensures var f' := Next(s, f, m); (!f'.Away? ==> f'.slot < |s.callers|) && (f' != f ==> |s.callers| > 0)
  {
    hide Comes, C.Step;
  }

  lemma FinisherAt(s: State, i: nat)
    requires Inv(s) && i < |s.finishers|
    ensures ShapeOk(s) && FinisherOk(s, s.finishers[i])
  {
    hide K.Inv, C.Inv, PlaceAt;
  }

  lemma CleanAll(s: State)
    requires Inv(s)
    ensures ShapeOk(s) && Clean(s)
  {
    hide K.Inv, C.Inv, PlaceAt, FinishersOk;
  }

  /** Every step is at most one step of the kernel and one of the ledger, which keep their own invariants. */
  lemma PartsInv(s: State, a: Action)
    requires Inv(s)
    ensures K.Inv(Step(s, a).kernel) && C.Inv(Step(s, a).credit) && ShapeOk(Step(s, a))
  {
    hide K.Inv, C.Inv, K.Step, C.Step, Clean, K.Enabled, C.Inv, Window, C.CanMove;
    KernelKept(s, a);
    CreditKept(s, a);
  }

  lemma KernelKept(s: State, a: Action)
    requires Inv(s)
    ensures K.Inv(Step(s, a).kernel) && |Step(s, a).kernel.lanes.lanes| == |s.kernel.lanes.lanes|
    ensures |Step(s, a).kernel.controls| == |Step(s, a).kernel.stages| == |s.kernel.lanes.lanes|
  {
    hide K.Inv, C.Inv, K.Step, C.Step, Clean, K.Enabled, K.QuietKept, Window, Comes;
    if Step(s, a).kernel != s.kernel {
      KernelStepKept(s.kernel, KernelPart(s, a));
    }
    LanesInv(Step(s, a).kernel);
  }

  /** The kernel's part in a step. */
  function KernelPart(s: State, a: Action): K.Action {
    match a
    case Kernel(k) => k
    case Confirm(p) => K.ControlStep(p, K.ConfirmRegistration)
    case Call(p, _) => K.ProducerStep(p, K.CheckAdmission)
    case Produce(p, m) => K.ProducerStep(p, m)
    case CountCharge(p) => K.ProducerStep(p, K.ReserveCredit(true))
    case RefuseCredit(p) => K.ProducerStep(p, K.ReserveCredit(false))
    case Install(p) => K.ProducerStep(p, K.CommitRecord)
    case GiveUp(p) => K.GiveUp(p)
    case EndCall(p) => K.LaneStep(p, L.ClearFlag)
    case EmptyCell => K.Clear
    case Retire(p, generation) => K.ControlStep(p, K.Retire(generation))
    case Finish(i, m) =>
      if i < |s.finishers| && !s.finishers[i].Away? && Control(s.finishers[i], m).Some?
      then K.ControlStep(s.finishers[i].slot, Control(s.finishers[i], m).value) else K.Check
    case _ => K.Check
  }

  lemma KernelStepKept(k: K.State, a: K.Action)
    requires K.Inv(k)
    ensures K.Inv(K.Step(k, a)) && |K.Step(k, a).lanes.lanes| == |k.lanes.lanes|
  {
    hide K.Inv, K.Step, K.QuietKept;
    K.StepInv(k, a);
    K.LanesKept(k, a);
  }

  lemma CreditKept(s: State, a: Action)
    requires Inv(s)
    ensures C.Inv(Step(s, a).credit) && |Step(s, a).credit.slots| == |s.credit.slots|
  {
    hide K.Inv, C.Inv, K.Step, C.Step, Clean, K.WriterPromises, Window, Comes;
    C.InvStep(s.credit, CreditPart(s, a));
    CreditCount(s.credit, CreditPart(s, a));
  }

  /** The ledger's part in a step. */
  function CreditPart(s: State, a: Action): C.Action {
    var held := if s.kernel.lanes.consumer.Holding? then s.kernel.lanes.consumer.lane else 0;
    match a
    case Credit(p, m) => C.Action(p, m)
    case CountCharge(p) => C.Action(p, C.CountLogical)
    case Install(p) => C.Action(p, C.SettleCommit)
    case EmptyCell => C.Action(held, C.Release(0))
    case ReturnCharge => C.Action(held, C.ReturnShare(0))
    case Finish(i, m) =>
      if i < |s.finishers| && !s.finishers[i].Away? && Ledger(s.finishers[i], m).Some?
      then C.Action(s.finishers[i].slot, Ledger(s.finishers[i], m).value) else C.Action(|s.credit.slots|, C.CheckLocal)
    case _ => C.Action(|s.credit.slots|, C.CheckLocal)
  }

  lemma CreditCount(c: C.State, a: C.Action)
    ensures |C.Step(c, a).slots| == |c.slots|
    ensures C.Step(c, a).history.overlapped ==>
              c.history.overlapped || (a.producer < |c.slots| && C.Overlap(C.Step(c, a).slots[a.producer]))
    ensures a.producer >= |c.slots| ==> C.Step(c, a) == c
  {
    hide C.CanMove, C.Moved, C.Overlap;
  }

  lemma StepClean(s: State, a: Action)
    requires Inv(s)
    ensures ShapeOk(Step(s, a)) && Clean(Step(s, a))
  {
    hide K.Inv, C.Inv, K.Step, C.Step, Clean, K.Enabled, Returning, ShapeOk, Window, Comes;
    if Enabled(s, a) {
      match a
      case Kernel(k) => KernelClean(s, k);
      case Confirm(p) => ConfirmClean(s, p);
      case Call(p, generation) => CallClean(s, p, generation);
      case Produce(p, m) => ProduceClean(s, p, m);
      case Credit(p, m) => CreditClean(s, p, m);
      case CountCharge(p) => CountChargeClean(s, p);
      case RefuseCredit(p) => RefuseCreditClean(s, p);
      case Install(p) => InstallClean(s, p);
      case GiveUp(p) => GiveUpClean(s, p);
      case EndCall(p) => EndCallClean(s, p);
      case EmptyCell => EmptyClean(s);
      case ReturnCharge => ReturnClean(s);
      case Retire(p, generation) => RetireClean(s, p, generation);
      case Finish(i, m) => FinishClean(s, i, m);
    } else {
      CleanAll(s);
    }
  }

  lemma KernelClean(s: State, k: K.Action)
    requires Inv(s) && Enabled(s, Kernel(k))
    ensures var s' := Step(s, Kernel(k)); ShapeOk(s') && Clean(s')
  {
    hide Inv, K.ClearedAt, Clean, Returning, K.WriterPromises;
    var s' := Step(s, Kernel(k));
    if !K.Enabled(s.kernel, k) {
      CleanAll(s);
      assert s' == s;
    } else {
      match k
      case ControlStep(p, _) => RegisterClean(s, p);
      case LaneStep(p, m) => LaneClean(s, p, m);
      case PublishRecord(p) => PublishClean(s, p);
      case WriteCell(p) => WriteClean(s, p);
      case Acknowledge => AcknowledgeClean(s);
      case _ => StillClean(s, k);
    }
  }

  /** On a slot that was never exposed no reconciliation runs beside a reservation. */
  lemma KeptApart(s: State, p: nat)
    requires K.Inv(s.kernel) && C.Inv(s.credit) && ShapeOk(s) && p < |s.callers| && PlaceAt(s, p) && !s.exposed[p]
    ensures !C.Overlap(s.credit.slots[p])
  {
    hide K.Inv, C.Inv, SharesOk, K.ClearedAt, Stale, Live, CallOk;
    C.LogicalNotNegative(s.credit, p);
    LanesInv(s.kernel);
  }

  lemma StepInv(s: State, a: Action)
    requires Inv(s)
    ensures Inv(Step(s, a))
  {
    hide K.Inv, C.Inv, Step, PlaceAt, FinishersOk;
    PartsInv(s, a);
    StepClean(s, a);
    var s' := Step(s, a);
    if Sheltered(s') {
      ExposedKept(s, a);
      OverlapPart(s, a);
      if s'.credit.history.overlapped {
        var p := CreditPart(s, a).producer;
        KeptApart(s', p);
      }
    }
  }

  lemma ExposedKept(s: State, a: Action)
    requires ShapeOk(s)
    ensures |Step(s, a).exposed| == |s.exposed|
    ensures forall p :: 0 <= p < |s.exposed| && s.exposed[p] ==> Step(s, a).exposed[p]
  {
    hide K.Step, C.Step, Window, Comes, K.Enabled;
  }

  lemma OverlapPart(s: State, a: Action)
    requires Inv(s)
    ensures |Step(s, a).credit.slots| == |s.credit.slots|
    ensures Step(s, a).credit.history.overlapped ==>
              || s.credit.history.overlapped
              || (CreditPart(s, a).producer < |s.credit.slots| &&
                  C.Overlap(Step(s, a).credit.slots[CreditPart(s, a).producer]))
  {
    hide K.Inv, C.Inv, K.Step, C.Step, Clean, K.WriterPromises, Window, Comes, C.Overlap;
    CreditCount(s.credit, CreditPart(s, a));
  }

  /** The kernel and the ledger as constructed, with every slot free and nothing handed out. */
  ghost predicate Start(s: State) {
    && K.Start(s.kernel) && C.Start(s.credit) && ShapeOk(s) && Sheltered(s) && !s.hasty
    && (forall p :: 0 <= p < |s.callers| ==>
          && s.callers[p].None? && s.issued[p] == 0 < s.kernel.controls[p].generation
          && s.kernel.controls[p].state.Free? && !s.kernel.controls[p].registering)
    && (forall i :: 0 <= i < |s.finishers| ==> s.finishers[i].Away?)
  }

  lemma StartInv(s: State)
    requires Start(s)
    ensures Inv(s)
  {
    hide K.Inv, C.Inv, Stale;
    K.StartInv(s.kernel);
    C.StartInv(s.credit);
  }

  lemma {:induction false} RunInv(s: State, schedule: seq<Action>)
    requires Start(s)
    ensures Inv(Run(s, schedule))
  {
    hide Inv, Start, Step;
    if schedule == [] {
      StartInv(s);
    } else {
      RunInv(s, schedule[..|schedule| - 1]);
      StepInv(Run(s, schedule[..|schedule| - 1]), schedule[|schedule| - 1]);
    }
  }

  /* --- What holds in every run ------------------------------------------------------------------------ */

  /** The generation of a slot that was never exposed advances only when every record ever admitted on it has been
      consumed, no call on it can publish any more or holds a reservation, no bytes are retained and no credit is left
      in hand - although the lane may have been tested long before, and whether or not the registration was retired
      during one of its own calls. */
  lemma GenerationAdvancesConsumed(s: State, schedule: seq<Action>, a: Action, p: nat)
    requires Start(s) && p < |Run(s, schedule).exposed| && !Run(s, schedule).exposed[p]
    ensures var t := Run(s, schedule); var u := Step(t, a);
            && ShapeOk(t) && ShapeOk(u) && |u.callers| == |t.callers|
            && (u.kernel.controls[p].generation != t.kernel.controls[p].generation ==>
                  && u.kernel.controls[p].generation == t.kernel.controls[p].generation + 1
                  && AllConsumed(t.kernel, p) && !Live(t.kernel.stages[p], t.kernel.lanes.lanes[p].holder)
                  && (t.credit.slots[p].owner.Idle? || t.credit.slots[p].owner.Forgotten?)
                  && t.credit.slots[p].logical == 0 && t.credit.slots[p].local == 0)
  {
    hide Inv, Start, Run;
    RunInv(s, schedule);
    AdvanceStep(Run(s, schedule), a, p);
  }

  lemma AdvanceStep(s: State, a: Action, p: nat)
    requires Inv(s) && p < |s.exposed| && !s.exposed[p]
    ensures var s' := Step(s, a);
            && ShapeOk(s) && ShapeOk(s') && |s'.callers| == |s.callers|
            && (s'.kernel.controls[p].generation != s.kernel.controls[p].generation ==>
                  && s'.kernel.controls[p].generation == s.kernel.controls[p].generation + 1
                  && AllConsumed(s.kernel, p) && !Live(s.kernel.stages[p], s.kernel.lanes.lanes[p].holder)
                  && (s.credit.slots[p].owner.Idle? || s.credit.slots[p].owner.Forgotten?)
                  && s.credit.slots[p].logical == 0 && s.credit.slots[p].local == 0)
  {
    hide K.Inv, C.Inv, K.Step, C.Step, Clean, K.ClearedAt, Window, Comes, Live, AllConsumed, K.Enabled;
    PartsInv(s, a);
    GenerationPart(s.kernel, KernelPart(s, a), p);
    CallersKept(s, a);
    KernelTaken(s, a);
    if Step(s, a).kernel.controls[p].generation != s.kernel.controls[p].generation {
      FinisherAt(s, a.f);
      NotLive(s, p);
    }
  }

  lemma CallersKept(s: State, a: Action)
    ensures |Step(s, a).callers| == |s.callers|
  {
    hide K.Step, C.Step, Window, Comes, K.Enabled;
  }

  /** A step changes the kernel by its own part, if at all. */
  lemma KernelTaken(s: State, a: Action)
    ensures Step(s, a).kernel == s.kernel || Step(s, a).kernel == K.Step(s.kernel, KernelPart(s, a))
  {
    hide K.Step, C.Step, Window, Comes, K.Enabled;
  }

  /** Only AdvanceGeneration changes a generation. */
  lemma GenerationPart(k: K.State, a: K.Action, p: nat)
    requires p < |k.controls|
    ensures |K.Step(k, a).controls| == |k.controls|
    ensures K.Step(k, a).controls[p].generation != k.controls[p].generation ==>
              && a == K.ControlStep(p, K.AdvanceGeneration) && k.controls[p].state.Reconciling?
              && K.Step(k, a).controls[p].generation == k.controls[p].generation + 1
  {
    hide K.Produce, K.WriterPromises, K.Scanned, K.Valid, L.Step, L.Enabled;
  }

  /** A call that can still publish on a slot that was never exposed does so under the generation its slot has: a
      registration that has been succeeded publishes nothing. */
  lemma PublishedUnderCurrentGeneration(s: State, schedule: seq<Action>, p: nat)
    requires Start(s) && p < |Run(s, schedule).exposed| && !Run(s, schedule).exposed[p]
    requires p < |Run(s, schedule).kernel.stages| && p < |Run(s, schedule).kernel.lanes.lanes|
    requires Live(Run(s, schedule).kernel.stages[p], Run(s, schedule).kernel.lanes.lanes[p].holder)
    ensures var t := Run(s, schedule);
            && p < |t.kernel.controls| && p < |t.issued|
            && !t.kernel.controls[p].state.Free? && !t.kernel.controls[p].registering
            && t.kernel.controls[p].generation == t.kernel.stages[p].generation == t.issued[p]
  {
    hide Start, Run, K.Inv, C.Inv, Clean, SharesOk, OwnerOk, Stale;
    RunInv(s, schedule);
    ShapeHolds(Run(s, schedule));
    ThisPlace(Run(s, schedule), p);
  }

  lemma ShapeHolds(s: State)
    requires Inv(s)
    ensures ShapeOk(s)
  {
    hide K.Inv, C.Inv, Clean;
  }

  /** The access a reconciliation makes next. */
  function NextAccess(r: C.Reconciler): C.SlotMove {
    match r
    case Tested => C.ReconcileTake
    case Merged => C.ReconcileLoad
    case Totaled(_) => C.ReconcileAdd
    case _ => C.ReconcileStore
  }

  function AccessesLeft(r: C.Reconciler): nat {
    match r
    case NoReconcile => 0
    case Tested => 4
    case Merged => 3
    case Totaled(_) => 2
    case Added(_) => 1
  }

  /** The ledger once the reconciliation of slot `p` has made the accesses it has left. */
  function Completed(c: C.State, p: nat): (c': C.State)
    requires p < |c.slots|
    decreases AccessesLeft(c.slots[p].reconciler)
  {
    var c' := C.Step(c, C.Action(p, NextAccess(c.slots[p].reconciler)));
    if p >= |c'.slots| || AccessesLeft(c'.slots[p].reconciler) >= AccessesLeft(c.slots[p].reconciler) then c
    else Completed(c', p)
  }

  /** The credit the reconciliation still has to move. */
  function ToMove(slot: C.Slot): int {
    match slot.reconciler
    case NoReconcile => 0
    case Tested => slot.local + slot.mailbox
    case Added(_) => 0
    case _ => slot.local
  }

  lemma {:induction false} CompletedExactly(c: C.State, p: nat)
    requires p < |c.slots| && CreditSafe(c.slots[p]) && !c.slots[p].reconciler.NoReconcile?
    ensures var slot := c.slots[p]; var c' := Completed(c, p);
            && c'.slots == c.slots[p := slot.(local := 0, reconciler := C.NoReconcile,
                                              mailbox := if slot.reconciler.Tested? then 0 else slot.mailbox)]
            && c'.central == c.central + ToMove(slot)
    decreases AccessesLeft(c.slots[p].reconciler)
  {
    var c' := C.Step(c, C.Action(p, NextAccess(c.slots[p].reconciler)));
    if c'.slots[p].reconciler.NoReconcile? {
      assert Completed(c', p) == c';
    } else {
      CompletedExactly(c', p);
    }
  }

  /** A finisher that found no bytes retained on a slot that was never exposed reconciles it undisturbed: nobody else
      holds a reservation there, what it has read is what there is, and the accesses it has left give the slot's credit
      to the central budget exactly. */
  lemma ReconcileNeverRefused(s: State, schedule: seq<Action>, i: nat)
    requires Start(s) && i < |Run(s, schedule).finishers| && Run(s, schedule).finishers[i].Empty?
    requires Run(s, schedule).finishers[i].slot < |Run(s, schedule).exposed|
    requires !Run(s, schedule).exposed[Run(s, schedule).finishers[i].slot]
    ensures var t := Run(s, schedule); var p := t.finishers[i].slot;
            && p < |t.credit.slots|
            && var slot, c' := t.credit.slots[p], Completed(t.credit, p);
               && slot.logical == 0 && (slot.owner.Idle? || slot.owner.Forgotten?)
               && c'.slots == t.credit.slots[p := slot.(local := 0, reconciler := C.NoReconcile,
                                                        mailbox := if slot.reconciler.Tested? then 0
                                                                   else slot.mailbox)]
               && c'.central == t.credit.central + ToMove(slot)
  {
    hide Start, Run, K.Inv, C.Inv, Clean, SharesOk, OwnerOk, Stale, CallSafe, CallOk, C.SlotOk;
    RunInv(s, schedule);
    var t := Run(s, schedule);
    FinisherAt(t, i);
    var p := t.finishers[i].slot;
    ThisPlace(t, p);
    CountedOwner(t, p);
    CompletedExactly(t.credit, p);
  }

  /** As long as no slot was exposed, no reconciliation has run beside a reservation, so credit is conserved. */
  lemma CreditConservedUnexposed(s: State, schedule: seq<Action>)
    requires Start(s) && Sheltered(Run(s, schedule))
    ensures var c := Run(s, schedule).credit; !c.history.overlapped && C.Conserves(c) && C.Covered(c)
  {
    hide Start, Run, K.Inv, C.Inv, Clean;
    RunInv(s, schedule);
    C.ApartCovered(Run(s, schedule).credit);
  }

  /** Retiring a registration between its calls never exposes its slot. */
  lemma RetiredBetweenCalls(s: State, schedule: seq<Action>, p: nat, generation: nat)
    requires Start(s) && p < |Run(s, schedule).exposed| && !Run(s, schedule).exposed[p]
    requires p < |Run(s, schedule).callers| && Run(s, schedule).callers[p] != Some(generation)
    ensures var u := Step(Run(s, schedule), Retire(p, generation)); p < |u.exposed| && !u.exposed[p]
  {
    hide Start, Run, K.Inv, C.Inv, Clean, SharesOk, OwnerOk, Stale, K.Step;
    RunInv(s, schedule);
    ThisPlace(Run(s, schedule), p);
  }

  /* --- Closing admission before retiring ------------------------------------------------------------------ */

  /** The call under way works under the last generation its slot has handed out; while admission is open that is the
      slot's own, and nothing is retired. */
  predicate TimelyAt(c: K.Control, stage: K.Stage, issued: nat, open: bool) {
    && (K.HasGeneration(stage) ==> stage.generation == issued)
    && (open ==> (c.state.Free? || c.state.Active?) && (K.HasGeneration(stage) ==> issued == c.generation))
  }

  ghost predicate Timely(s: State)
    requires ShapeOk(s)
  {
    forall p :: 0 <= p < |s.callers| ==>
      TimelyAt(s.kernel.controls[p], s.kernel.stages[p], s.issued[p], s.kernel.open)
  }

  /** What a kernel step can do to slot `p`. */
  lemma KernelSlot(k: K.State, a: K.Action, p: nat)
    requires p < |k.controls| == |k.stages|
    ensures var k' := K.Step(k, a);
            && |k'.controls| == |k'.stages| == |k.stages| && (k'.open ==> k.open)
            && k'.controls[p] == (if a.ControlStep? && a.p == p then K.Controlled(k.controls[p], k.open, a.control)
                                  else k.controls[p])
            && (K.HasGeneration(k'.stages[p]) ==>
                  || (K.HasGeneration(k.stages[p]) && k'.stages[p].generation == k.stages[p].generation)
                  || (a == K.ProducerStep(p, K.CheckGeneration(k.controls[p].generation)) &&
                      k'.stages[p].generation == k.controls[p].generation))
  {
    hide K.WriterPromises, K.Scanned, K.Valid, L.Step, L.Enabled, K.Controlled;
  }

  lemma TimelyStep(s: State, a: Action)
    requires Inv(s) && ShapeOk(s) && ShapeOk(Step(s, a)) && Timely(s) && !Step(s, a).hasty
    ensures Timely(Step(s, a))
  {
    hide K.Inv, C.Inv, K.Step, C.Step, Clean, K.ClearedAt, Window, Comes, K.Enabled;
    var s' := Step(s, a);
    CallersKept(s, a);
    KernelTaken(s, a);
    forall p | 0 <= p < |s'.callers|
      ensures TimelyAt(s'.kernel.controls[p], s'.kernel.stages[p], s'.issued[p], s'.kernel.open)
    {
      KernelSlot(s.kernel, KernelPart(s, a), p);
      TimelySlot(s, a, p);
    }
  }

  lemma TimelySlot(s: State, a: Action, p: nat)
    requires Inv(s) && ShapeOk(s) && ShapeOk(Step(s, a)) && !Step(s, a).hasty && p < |s.callers|
    requires TimelyAt(s.kernel.controls[p], s.kernel.stages[p], s.issued[p], s.kernel.open)
    requires |Step(s, a).callers| == |s.callers|
    ensures var s' := Step(s, a); TimelyAt(s'.kernel.controls[p], s'.kernel.stages[p], s'.issued[p], s'.kernel.open)
  {
    hide K.Inv, C.Inv, K.Step, C.Step, Clean, K.ClearedAt, Window, Comes, K.Enabled, SharesOk, OwnerOk, SafeAt;
    ThisPlace(s, p);
    KernelSlot(s.kernel, KernelPart(s, a), p);
    KernelTaken(s, a);
  }

  /** A run that closes admission before any retirement takes effect, as the Runtime does, hands out no generation
      after that of a call under way: whatever overtakes the call, no successor shares its slot. */
  lemma NoSuccessor(s: State, schedule: seq<Action>, p: nat)
    requires Start(s) && !Run(s, schedule).hasty && p < |Run(s, schedule).kernel.stages|
    requires K.HasGeneration(Run(s, schedule).kernel.stages[p])
    ensures var t := Run(s, schedule); p < |t.issued| && t.kernel.stages[p].generation == t.issued[p]
  {
    hide Start, Run, Inv;
    RunInv(s, schedule);
    ShapeHolds(Run(s, schedule));
    TimelyRun(s, schedule);
  }

  lemma {:induction false} TimelyRun(s: State, schedule: seq<Action>)
    requires Start(s) && !Run(s, schedule).hasty
    ensures ShapeOk(Run(s, schedule)) && Timely(Run(s, schedule))
  {
    hide Inv, Step, Timely, ShapeOk;
    RunInv(s, schedule);
    ShapeHolds(Run(s, schedule));
    if schedule == [] {
      TimelyStart(s);
    } else {
      var t, a := Run(s, schedule[..|schedule| - 1]), schedule[|schedule| - 1];
      RunInv(s, schedule[..|schedule| - 1]);
      ShapeHolds(t);
      HastyKept(t, a);
      TimelyRun(s, schedule[..|schedule| - 1]);
      TimelyStep(t, a);
    }
  }

  lemma TimelyStart(s: State)
    requires Start(s)
    ensures ShapeOk(s) && Timely(s)
  {
    hide C.Start;
  }

  lemma HastyKept(s: State, a: Action)
    ensures s.hasty ==> Step(s, a).hasty
  {
    hide K.Step, C.Step, Window, Comes, K.Enabled;
  }
}
