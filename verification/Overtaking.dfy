/** Retiring a registration during one of its own calls.

Once a registration is retired, other threads finish the retirement: producers on other lanes complete their
publications, the consumer empties and acknowledges records, and finishers test the lane, take the slot, reconcile its
credit and advance its generation. A call of the retired registration is overtaken when the generation advances while
the call can still publish. Whether that can happen is decided when the registration is retired.
*/
module Overtaking {
  import opened Accounting
  import C = CreditLedger
  import K = ProducerKernel
  import L = ProducerLanes
  import opened Options
  import opened Retirement

  /** The call under way on slot `p` belongs to generation `g` and can still publish. */
  predicate LiveUnder(k: K.State, p: nat, g: nat) {
    && p < |k.stages| && p < |k.lanes.lanes|
    && Live(k.stages[p], k.lanes.lanes[p].holder) && k.stages[p].generation == g
  }

  /** The schedule takes the generation away from under a call of the registration retired now. */
  predicate Overtakes(s: State, schedule: seq<Action>, p: nat, g: nat) {
    var k := Run(Step(s, Retire(p, g)), schedule).kernel;
    p < |k.controls| && k.controls[p].generation != g && LiveUnder(k, p, g)
  }

  ghost predicate Overtaken(s: State, p: nat, g: nat) {
    exists schedule: seq<Action> :: Overtakes(s, schedule, p, g)
  }

  /* --- A retirement outside the window is never overtaken --------------------------------------------------- */

  /** Generation `g` of slot `p` is being retired and the slot is not exposed, or it is past and none of its calls can
      publish. */
  ghost predicate Settled(s: State, p: nat, g: nat) {
    && Inv(s) && ShapeOk(s) && p < |s.callers|
    && var c := s.kernel.controls[p];
       if c.generation == g then !s.exposed[p] && s.issued[p] == g && (c.state.Retiring? || c.state.Reconciling?)
       else c.generation > g && !LiveUnder(s.kernel, p, g)
  }

  /** A kernel step makes a call live only through the check of its generation. */
  lemma LiveSlot(k: K.State, a: K.Action, p: nat, g: nat)
    requires K.Inv(k) && p < |k.controls| == |k.stages| == |k.lanes.lanes| && k.controls[p].generation != g
    requires LiveUnder(K.Step(k, a), p, g)
    ensures LiveUnder(k, p, g)
  {
    hide K.Inv, K.WriterPromises, K.Scanned, K.Valid, L.Step, L.Enabled, K.Controlled, L.PositionsOk, Live, K.Produce;
    KernelSlot(k, a, p);
    if K.Enabled(k, a) {
      LanesInv(k);
      match a
      case LaneStep(q, m) => LiveLane(k, q, m, p);
      case WriteCell(q) => LiveWrite(k, q, p);
      case PublishRecord(q) => LivePublish(k, q, p);
      case GiveUp(q) => LiveGiveUp(k, q, p);
      case ProducerStep(q, m) => LiveProducer(k, q, m, p, g);
      case Acknowledge => LiveAcknowledge(k, p);
      case _ => LiveStill(k, a, p);
    }
  }

  lemma LiveLane(k: K.State, q: nat, m: L.LaneMove, p: nat)
    requires K.Inv(k) && K.Enabled(k, K.LaneStep(q, m)) && p < |k.stages| == |k.lanes.lanes|
    ensures var k' := K.Step(k, K.LaneStep(q, m));
            && p < |k'.stages| == |k'.lanes.lanes|
            && (Live(k'.stages[p], k'.lanes.lanes[p].holder) ==>
                  k'.stages[p] == k.stages[p] && Live(k.stages[p], k.lanes.lanes[p].holder))
  {
    hide K.Inv, K.Step, L.PositionsOk, K.ClearedAt;
    K.LaneAt(k, q);
    LaneEffect(k, q, m);
  }

  lemma LiveWrite(k: K.State, q: nat, p: nat)
    requires K.Enabled(k, K.WriteCell(q)) && p < |k.stages| == |k.lanes.lanes|
    ensures var k' := K.Step(k, K.WriteCell(q));
            && p < |k'.stages| == |k'.lanes.lanes|
            && (Live(k'.stages[p], k'.lanes.lanes[p].holder) ==>
                  k'.stages[p] == k.stages[p] && Live(k.stages[p], k.lanes.lanes[p].holder))
  {
    hide K.Step, K.ClearedAt;
    WriteEffect(k, q);
  }

  lemma LivePublish(k: K.State, q: nat, p: nat)
    requires K.Inv(k) && K.Enabled(k, K.PublishRecord(q)) && p < |k.stages| == |k.lanes.lanes|
    ensures var k' := K.Step(k, K.PublishRecord(q));
            && p < |k'.stages| == |k'.lanes.lanes|
            && (Live(k'.stages[p], k'.lanes.lanes[p].holder) ==>
                  K.HasGeneration(k.stages[p]) && k'.stages[p].generation == k.stages[p].generation &&
                  Live(k.stages[p], k.lanes.lanes[p].holder))
  {
    hide K.Inv, K.Step, K.ClearedAt, K.Working;
    PublishEffect(k, q);
  }

  lemma LiveGiveUp(k: K.State, q: nat, p: nat)
    requires K.Enabled(k, K.GiveUp(q)) && p < |k.stages| == |k.lanes.lanes|
    ensures var k' := K.Step(k, K.GiveUp(q));
            && p < |k'.stages| == |k'.lanes.lanes|
            && (Live(k'.stages[p], k'.lanes.lanes[p].holder) ==>
                  k'.stages[p] == k.stages[p] && Live(k.stages[p], k.lanes.lanes[p].holder))
  {
    hide K.Step, K.ClearedAt;
    GiveUpEffect(k, q);
  }

  lemma LiveProducer(k: K.State, q: nat, m: K.ProducerMove, p: nat, g: nat)
    requires K.Enabled(k, K.ProducerStep(q, m)) && p < |k.stages| == |k.lanes.lanes| == |k.controls|
    requires k.controls[p].generation != g && LiveUnder(K.Step(k, K.ProducerStep(q, m)), p, g)
    ensures LiveUnder(k, p, g)
  {
    hide K.Step, K.ClearedAt, K.WriterPromises;
    ProducerEffect(k, q, m);
  }

  lemma LiveAcknowledge(k: K.State, p: nat)
    requires K.Inv(k) && K.Enabled(k, K.Acknowledge) && p < |k.stages| == |k.lanes.lanes|
    ensures var k' := K.Step(k, K.Acknowledge);
            k'.stages == k.stages && p < |k'.lanes.lanes| && k'.lanes.lanes[p].holder == k.lanes.lanes[p].holder
  {
    hide K.Inv, K.Step;
    AcknowledgeEffect(k);
  }

  lemma LiveStill(k: K.State, a: K.Action, p: nat)
    requires K.Inv(k) && K.Enabled(k, a) && p < |k.stages| == |k.lanes.lanes|
    requires a.Close? || a.Consume? || a.Check? || a.Quiesce? || a.Clear? || a.ControlStep?
    ensures var k' := K.Step(k, a);
            k'.stages == k.stages && p < |k'.lanes.lanes| && k'.lanes.lanes[p].holder == k.lanes.lanes[p].holder
  {
    hide K.Inv, K.Scanned, K.Valid, K.Controlled, L.HasHead;
  }

  lemma SettledStep(s: State, a: Action, p: nat, g: nat)
    requires Settled(s, p, g)
    ensures Settled(Step(s, a), p, g)
  {
    hide Inv, K.Step, C.Step, Window, Comes, K.Enabled, Live;
    StepInv(s, a);
    var s' := Step(s, a);
    ShapeHolds(s');
    CallersKept(s, a);
    KernelTaken(s, a);
    KernelSlot(s.kernel, KernelPart(s, a), p);
    GenerationPart(s.kernel, KernelPart(s, a), p);
    if s.kernel.controls[p].generation == g {
      RetiringStep(s, a, p, g);
    } else if LiveUnder(s'.kernel, p, g) {
      KernelHolds(s);
      LiveSlot(s.kernel, KernelPart(s, a), p, g);
    }
  }

  lemma KernelHolds(s: State)
    requires Inv(s)
    ensures K.Inv(s.kernel) && C.Inv(s.credit) && ShapeOk(s)
  {
    hide K.Inv, C.Inv, Clean;
  }

  /** While a generation is being retired its slot stays so, until the generation advances and leaves no live call. */
  lemma RetiringStep(s: State, a: Action, p: nat, g: nat)
    requires Inv(s) && ShapeOk(s) && p < |s.callers| && s.kernel.controls[p].generation == g == s.issued[p]
    requires !s.exposed[p] && (s.kernel.controls[p].state.Retiring? || s.kernel.controls[p].state.Reconciling?)
    ensures var s' := Step(s, a);
            && ShapeOk(s') && |s'.callers| == |s.callers|
            && var c := s'.kernel.controls[p];
               if c.generation == g
               then !s'.exposed[p] && s'.issued[p] == g && (c.state.Retiring? || c.state.Reconciling?)
               else c.generation > g && !LiveUnder(s'.kernel, p, g)
  {
    hide K.Inv, C.Inv, K.Step, C.Step, Clean, K.ClearedAt, Window, Comes, K.Enabled, SharesOk, OwnerOk, SafeAt, Live,
         AllConsumed;
    AdvanceStep(s, a, p);
    ThisPlace(s, p);
    KernelTaken(s, a);
    KernelSlot(s.kernel, KernelPart(s, a), p);
    GenerationPart(s.kernel, KernelPart(s, a), p);
    if StoresHere(s, a, p) {
      FinisherAt(s, a.f);
      AdvanceLanes(s.kernel, p, KernelPart(s, a).control);
    }
  }

  /** The step is a finisher's store in slot `p`. */
  predicate StoresHere(s: State, a: Action, p: nat) {
    && a.Finish? && a.f < |s.finishers| && !s.finishers[a.f].Away? && s.finishers[a.f].slot == p
    && KernelPart(s, a).ControlStep?
  }

  lemma AdvanceLanes(k: K.State, p: nat, m: K.ControlMove)
    ensures var k' := K.Step(k, K.ControlStep(p, m)); k'.stages == k.stages && k'.lanes == k.lanes
  {
    hide K.Controlled;
  }

  lemma {:induction false} SettledRun(s: State, schedule: seq<Action>, p: nat, g: nat)
    requires Settled(s, p, g)
    ensures Settled(Run(s, schedule), p, g)
  {
    hide Settled, Step;
    if schedule != [] {
      SettledRun(s, schedule[..|schedule| - 1], p, g);
      SettledStep(Run(s, schedule[..|schedule| - 1]), schedule[|schedule| - 1], p, g);
    }
  }

  lemma RetiredSettled(s: State, p: nat, g: nat)
    requires Inv(s) && ShapeOk(s) && p < |s.callers| && !s.exposed[p] && Takes(s.kernel.controls[p], g) && !Window(s, p)
    ensures Settled(Step(s, Retire(p, g)), p, g)
  {
    hide K.Inv, C.Inv, Clean, SharesOk, OwnerOk, K.Step, K.ClearedAt, SafeAt, Window;
    ThisPlace(s, p);
    StepInv(s, Retire(p, g));
    ControlEffect(s.kernel, p, K.Retire(g));
  }

  lemma OutsideWindow(s: State, schedule: seq<Action>, p: nat, g: nat)
    requires Inv(s) && ShapeOk(s) && p < |s.callers| && !s.exposed[p] && Takes(s.kernel.controls[p], g) && !Window(s, p)
    ensures !Overtakes(s, schedule, p, g)
  {
    hide Inv, Step, Run, Window;
    RetiredSettled(s, p, g);
    SettledRun(Step(s, Retire(p, g)), schedule, p, g);
  }

  /* --- Runs ------------------------------------------------------------------------------------------------ */

  ghost predicate Reaches(s: State, t: State) {
    exists schedule: seq<Action> :: Run(s, schedule) == t
  }

  lemma ReachesStep(s: State, t: State, a: Action)
    requires Reaches(s, t)
    ensures Reaches(s, Step(t, a))
  {
    hide Step;
    var schedule: seq<Action> :| Run(s, schedule) == t;
    assert (schedule + [a])[..|schedule|] == schedule;
    assert Run(s, schedule + [a]) == Step(t, a);
  }

  lemma ReachesItself(s: State)
    ensures Reaches(s, s)
  {
    assert Run(s, []) == s;
  }

  lemma {:induction false} RunAppend(s: State, a: seq<Action>, b: seq<Action>)
    ensures Run(s, a + b) == Run(Run(s, a), b)
    decreases |b|
  {
    hide Step;
    if b == [] {
      assert a + b == a;
    } else {
      assert (a + b)[..|a + b| - 1] == a + b[..|b| - 1];
      RunAppend(s, a, b[..|b| - 1]);
    }
  }

  lemma ReachesOn(s: State, t: State, u: State)
    requires Reaches(s, t) && Reaches(t, u)
    ensures Reaches(s, u)
  {
    hide Run;
    var a: seq<Action> :| Run(s, a) == t;
    var b: seq<Action> :| Run(t, b) == u;
    RunAppend(s, a, b);
  }

  lemma ReachesOnward(s: State, a: Action, u: State)
    requires Reaches(Step(s, a), u)
    ensures Reaches(s, u)
  {
    hide Reaches, Step;
    ReachesItself(s);
    ReachesStep(s, s, a);
    ReachesOn(s, Step(s, a), u);
  }

  /** Where the worker stands in IsQuiescent: the scan of the slots is within the table, and it never runs during a
      consumption. */
  predicate WorkerOk(k: K.State) {
    var n := |k.lanes.lanes|;
    match k.scan
    case AtSlot(slot, _, _) => slot <= n && k.lanes.consumer.Resting?
    case SawFlag(slot, _, _) => slot < n && k.lanes.consumer.Resting?
    case SawEmpty(slot, _, _) => slot < n && k.lanes.consumer.Resting?
    case _ => true
  }

  lemma WorkerStep(k: K.State, a: K.Action)
    requires K.Inv(k) && WorkerOk(k)
    ensures WorkerOk(K.Step(k, a))
  {
    hide K.Inv, K.WriterPromises, K.Valid, K.Controlled, K.Produce, L.HasHead, L.PositionsOk;
    LanesInv(k);
    K.LanesKept(k, a);
  }

  lemma {:induction false} WorkerRun(s: State, schedule: seq<Action>)
    requires Start(s)
    ensures WorkerOk(Run(s, schedule).kernel)
  {
    hide Inv, Step, WorkerOk, K.Step;
    if schedule == [] {
      WorkerStarts(s);
    } else {
      var t, a := Run(s, schedule[..|schedule| - 1]), schedule[|schedule| - 1];
      WorkerRun(s, schedule[..|schedule| - 1]);
      RunInv(s, schedule[..|schedule| - 1]);
      KernelHolds(t);
      KernelTaken(t, a);
      WorkerStep(t.kernel, KernelPart(t, a));
    }
  }

  lemma WorkerStarts(s: State)
    requires Start(s)
    ensures WorkerOk(s.kernel)
  {}

  /* --- The other threads' work --------------------------------------------------------------------------------- */

  /** Nothing of slot `p`, its call and the finishers has changed, except that records of the lane were consumed. */
  ghost predicate Calm(s: State, t: State, p: nat) {
    && ShapeOk(s) && ShapeOk(t) && |t.callers| == |s.callers| && p < |s.callers| && t.finishers == s.finishers
    && t.kernel.stages[p] == s.kernel.stages[p] && t.kernel.controls[p] == s.kernel.controls[p]
    && t.callers[p] == s.callers[p] && s.kernel.lanes.lanes[p].read <= t.kernel.lanes.lanes[p].read
    && t.kernel.lanes.lanes[p] == s.kernel.lanes.lanes[p].(read := t.kernel.lanes.lanes[p].read)
  }

  /** The worker can go on consuming. */
  ghost predicate Sound(s: State) { Inv(s) && WorkerOk(s.kernel) }

  predicate NoneMid(k: K.State, n: nat) {
    forall q :: 0 <= q < n && q < |k.lanes.lanes| ==> !L.MidPublication(k.lanes.lanes[q].holder)
  }

  lemma SoundStep(s: State, a: Action)
    requires Sound(s)
    ensures Sound(Step(s, a)) && ShapeOk(s) && ShapeOk(Step(s, a)) && |Step(s, a).callers| == |s.callers|
  {
    hide Inv, Step, K.Step, WorkerOk;
    KernelHolds(s);
    StepInv(s, a);
    KernelHolds(Step(s, a));
    KernelTaken(s, a);
    CallersKept(s, a);
    WorkerStep(s.kernel, KernelPart(s, a));
  }

  /** The accesses a publication has left before its record is published. */
  function PublicationLeft(holder: L.Holder): nat {
    if holder.Sequenced? then 3 else if holder.Written? then 2 else if holder.Advanced? then 1 else 0
  }

  function PublishNext(s: State, q: nat): Action
    requires q < |s.kernel.lanes.lanes|
  {
    var h := s.kernel.lanes.lanes[q].holder;
    Kernel(if h.Sequenced? then K.WriteCell(q)
           else K.LaneStep(q, if h.Written? then L.AdvanceWrite else L.StorePublished))
  }

  /** The other lane's publication moves on. */
  lemma PublishOn(s: State, q: nat, p: nat)
    requires Sound(s) && ShapeOk(s) && p < |s.callers| && q < |s.callers| && q != p
    requires L.MidPublication(s.kernel.lanes.lanes[q].holder)
    ensures var s' := Step(s, PublishNext(s, q));
            && Sound(s') && Calm(s, s', p) && s'.kernel.lanes.lanes[p] == s.kernel.lanes.lanes[p]
            && PublicationLeft(s'.kernel.lanes.lanes[q].holder) < PublicationLeft(s.kernel.lanes.lanes[q].holder)
            && (forall r :: 0 <= r < |s.callers| && r != q ==>
                  s'.kernel.lanes.lanes[r].holder == s.kernel.lanes.lanes[r].holder)
  {
    hide Inv, K.Step, WorkerOk, K.ClearedAt, L.PositionsOk;
    SoundStep(s, PublishNext(s, q));
    PublishEnabled(s, q);
    if s.kernel.lanes.lanes[q].holder.Sequenced? {
      WriteEffect(s.kernel, q);
      WriteHolder(s.kernel, q);
    } else {
      var m := if s.kernel.lanes.lanes[q].holder.Written? then L.AdvanceWrite else L.StorePublished;
      LaneEffect(s.kernel, q, m);
      LaneHolder(s.kernel, q, m);
    }
  }

  lemma PublishEnabled(s: State, q: nat)
    requires Inv(s) && ShapeOk(s) && q < |s.callers| && L.MidPublication(s.kernel.lanes.lanes[q].holder)
    ensures PublishNext(s, q).step.WriteCell? || PublishNext(s, q).step.LaneStep?
    ensures K.Enabled(s.kernel, PublishNext(s, q).step) && L.PositionsOk(s.kernel.lanes.lanes[q])
  {
    hide K.Inv, C.Inv, Clean, L.Inv;
    KernelHolds(s);
    KernelParts(s, q);
    LanesInv(s.kernel);
    LaneCells(s.kernel.lanes, q);
  }

  lemma LaneCells(l: L.State, q: nat)
    requires L.Inv(l) && q < |l.lanes|
    ensures l.lanes[q].capacity > 0 && l.lanes[q].offset + l.lanes[q].capacity <= |l.cells|
    ensures forall i: nat :: L.CellOf(l.lanes[q], i) < |l.cells|
  {
    assert L.LaneOk(l.lanes[q], q, l.cells, l.admissions, l.next);
  }

  lemma WriteHolder(k: K.State, q: nat)
    requires K.Enabled(k, K.WriteCell(q))
    ensures K.Step(k, K.WriteCell(q)).lanes.lanes[q].holder.Written?
  {}

  lemma LaneHolder(k: K.State, q: nat, m: L.LaneMove)
    requires K.Enabled(k, K.LaneStep(q, m)) && (m.AdvanceWrite? || m.StorePublished?)
    ensures var h := K.Step(k, K.LaneStep(q, m)).lanes.lanes[q].holder;
            (m.AdvanceWrite? ==> h.Advanced?) && (m.StorePublished? ==> h.Stored?)
  {}

  lemma CalmOn(s: State, t: State, u: State, p: nat)
    requires Calm(s, t, p) && Calm(t, u, p)
    ensures Calm(s, u, p)
  {}

  lemma CalmItself(s: State, p: nat)
    requires ShapeOk(s) && p < |s.callers|
    ensures Calm(s, s, p)
  {}

  /** The other lanes' publications can be completed, one after the other. */
  lemma {:induction false} SettleLanes(s: State, n: nat, p: nat) returns (t: State)
    requires Sound(s) && ShapeOk(s) && p < |s.callers| && !L.MidPublication(s.kernel.lanes.lanes[p].holder)
    requires n <= |s.callers| && NoneMid(s.kernel, n)
    ensures Reaches(s, t) && Sound(t) && Calm(s, t, p) && NoneMid(t.kernel, |t.kernel.lanes.lanes|)
    ensures t.kernel.lanes.lanes[p] == s.kernel.lanes.lanes[p]
    decreases |s.callers| - n,
              if n < |s.kernel.lanes.lanes| then PublicationLeft(s.kernel.lanes.lanes[n].holder) else 0
  {
    hide Sound, Step, Reaches, WorkerOk;
    if n == |s.callers| {
      ReachesItself(s);
      CalmItself(s, p);
      t := s;
    } else if !L.MidPublication(s.kernel.lanes.lanes[n].holder) {
      t := SettleLanes(s, n + 1, p);
    } else {
      PublishOn(s, n, p);
      var a := PublishNext(s, n);
      t := SettleLanes(Step(s, a), n, p);
      ReachesOnward(s, a, t);
      CalmOn(s, Step(s, a), t, p);
    }
  }

  /* --- The consumer ---------------------------------------------------------------------------------------------- */

  predicate Quiescing(scan: K.Scan) { scan.AtSlot? || scan.SawFlag? || scan.SawEmpty? }

  /** What the worker does next to consume a record. */
  function WorkNext(s: State): Action {
    var k, n := s.kernel, |s.kernel.lanes.lanes|;
    match k.scan
    case AtSlot(slot, _, _) => Kernel(K.Quiesce(if slot < n then K.TestFlag else K.EndQuiescence))
    case SawFlag(_, _, _) => Kernel(K.Quiesce(K.TestEmpty))
    case SawEmpty(_, _, _) => Kernel(K.Quiesce(K.TestFree))
    case _ =>
      match k.lanes.consumer
      case Resting => Kernel(K.Consume(L.BeginScan))
      case Scanning(lane, _, _) => Kernel(K.Consume(if lane < n then L.ScanLane else L.FinishScan))
      case Inspecting(_, _, _, _) => Kernel(K.Consume(L.InspectHead))
      case Holding(_, _, _) =>
        if k.taking.Untouched? then Kernel(K.Check)
        else if k.taking.Checked? then EmptyCell
        else if Returning(s) then ReturnCharge
        else Kernel(K.Acknowledge)
  }

  /** The phases of the worker's way to the next record, the farthest first. */
  function WorkPhase(s: State): nat {
    var k := s.kernel;
    if Quiescing(k.scan) then 7
    else match k.lanes.consumer
         case Resting => 5
         case Scanning(_, _, owed) => if owed then 4 else 6
         case Inspecting(_, _, _, owed) => if owed then 4 else 6
         case Holding(_, _, _) =>
           if k.taking.Untouched? then 3 else if k.taking.Checked? then 2 else if Returning(s) then 1 else 0
  }

  /** The accesses left in the phase. */
  function WorkLeft(s: State): nat {
    var k, n := s.kernel, |s.kernel.lanes.lanes|;
    match k.scan
    case AtSlot(slot, _, _) => if slot <= n then 3 * (n - slot) + 3 else 0
    case SawFlag(slot, _, _) => if slot <= n then 3 * (n - slot) + 2 else 0
    case SawEmpty(slot, _, _) => if slot <= n then 3 * (n - slot) + 1 else 0
    case _ =>
      match k.lanes.consumer
      case Scanning(lane, _, _) => if lane <= n then 2 * (n - lane) + 1 else 0
      case Inspecting(lane, _, _, _) => if lane <= n then 2 * (n - lane) else 0
      case _ => 0
  }

  /** The worker has come closer to the next record, or taken it. */
  predicate Closer(s: State, s': State) {
    || s'.kernel.lanes.next == s.kernel.lanes.next + 1
    || (s'.kernel.lanes.next == s.kernel.lanes.next &&
        (WorkPhase(s') < WorkPhase(s) || (WorkPhase(s') == WorkPhase(s) && WorkLeft(s') < WorkLeft(s))))
  }

  /** What one access of the worker leaves of the rest. */
  ghost predicate Worked(s: State, s': State, p: nat) {
    && Calm(s, s', p) && Closer(s, s') && s'.kernel.lanes.accepted == s.kernel.lanes.accepted
    && s'.kernel.lanes.lanes[p].read <= s.kernel.lanes.lanes[p].read + 1
    && NoneMid(s'.kernel, |s'.kernel.lanes.lanes|)
  }

  lemma QuiesceWorks(s: State, p: nat)
    requires Sound(s) && ShapeOk(s) && p < |s.callers| && NoneMid(s.kernel, |s.kernel.lanes.lanes|)
    requires Quiescing(s.kernel.scan)
    ensures Worked(s, Step(s, WorkNext(s)), p)
  {
    hide Inv, Returning;
  }

  /** A scan with the next record still ahead of it. */
  lemma OwedScan(l: L.State)
    requires L.Inv(l) && (l.consumer.Scanning? || l.consumer.Inspecting?)
    ensures l.consumer.lane <= |l.lanes| && (l.consumer.Inspecting? ==> l.consumer.lane < |l.lanes|)
    ensures l.consumer.owed && l.consumer.Scanning? ==> l.consumer.lane < |l.lanes|
  {}

  lemma ConsumeEffect(k: K.State, m: L.ConsumerMove)
    requires K.Enabled(k, K.Consume(m))
    ensures var c := L.Consumed(k.lanes, m);
            K.Step(k, K.Consume(m)) ==
              k.(lanes := k.lanes.(consumer := c, claimActive := c.Holding?), taking := K.Untouched)
  {
    hide L.Consumed;
  }

  /** An access of the consumer that changes nothing but its own progress. */
  lemma ConsumeCalm(s: State, m: L.ConsumerMove, p: nat)
    requires ShapeOk(s) && p < |s.callers| && NoneMid(s.kernel, |s.kernel.lanes.lanes|)
    requires K.Enabled(s.kernel, K.Consume(m))
    ensures var s' := Step(s, Kernel(K.Consume(m)));
            && Calm(s, s', p) && NoneMid(s'.kernel, |s'.kernel.lanes.lanes|)
            && s'.kernel.lanes.accepted == s.kernel.lanes.accepted && s'.kernel.lanes.next == s.kernel.lanes.next
            && s'.kernel.lanes.lanes == s.kernel.lanes.lanes && s'.kernel.scan == s.kernel.scan
            && s'.kernel.lanes.consumer == L.Consumed(s.kernel.lanes, m) && s'.kernel.taking.Untouched?
  {
    hide K.Step, K.Enabled, L.Consumed;
    ConsumeEffect(s.kernel, m);
  }

  lemma ScanWorks(s: State, p: nat)
    requires Sound(s) && ShapeOk(s) && p < |s.callers| && NoneMid(s.kernel, |s.kernel.lanes.lanes|)
    requires !Quiescing(s.kernel.scan) && (s.kernel.lanes.consumer.Scanning? || s.kernel.lanes.consumer.Inspecting?)
    ensures Worked(s, Step(s, WorkNext(s)), p)
  {
    hide Inv, L.Inv, Returning, K.Step, Step, Calm, NoneMid, L.HasHead;
    KernelHolds(s);
    LanesInv(s.kernel);
    OwedScan(s.kernel.lanes);
    if s.kernel.lanes.consumer.Inspecting? {
      LaneCells(s.kernel.lanes, s.kernel.lanes.consumer.lane);
    }
    ConsumeCalm(s, WorkNext(s).step.step, p);
  }

  lemma RestWorks(s: State, p: nat)
    requires Sound(s) && ShapeOk(s) && p < |s.callers| && NoneMid(s.kernel, |s.kernel.lanes.lanes|)
    requires !Quiescing(s.kernel.scan) && s.kernel.lanes.consumer.Resting?
    requires s.kernel.lanes.next < s.kernel.lanes.accepted
    ensures Worked(s, Step(s, WorkNext(s)), p)
  {
    hide Inv, L.Inv, Returning, L.HasHead, K.Step, Step, Calm;
    KernelHolds(s);
    LanesInv(s.kernel);
    NotClaiming(s.kernel.lanes);
    L.NextIsSomeHead(s.kernel.lanes);
    ConsumeCalm(s, L.BeginScan, p);
  }

  lemma NotClaiming(l: L.State)
    requires L.Inv(l) && l.consumer.Resting?
    ensures !l.claimActive
  {}

  lemma CheckWorks(s: State, p: nat)
    requires ShapeOk(s) && p < |s.callers| && NoneMid(s.kernel, |s.kernel.lanes.lanes|)
    requires !Quiescing(s.kernel.scan) && s.kernel.lanes.consumer.Holding? && s.kernel.taking.Untouched?
    ensures Worked(s, Step(s, Kernel(K.Check)), p)
  {
    hide K.Valid;
  }

  lemma ClearWorks(s: State, p: nat)
    requires Sound(s) && ShapeOk(s) && p < |s.callers| && NoneMid(s.kernel, |s.kernel.lanes.lanes|)
    requires !Quiescing(s.kernel.scan) && s.kernel.lanes.consumer.Holding? && s.kernel.taking.Checked?
    ensures Worked(s, Step(s, EmptyCell), p)
  {
    hide Inv, C.Step;
    KernelHolds(s);
    K.HeldCell(s.kernel);
    CreditCount(s.credit, C.Action(s.kernel.lanes.consumer.lane, C.Release(0)));
  }

  lemma ReturnWorks(s: State, p: nat)
    requires Sound(s) && ShapeOk(s) && p < |s.callers| && NoneMid(s.kernel, |s.kernel.lanes.lanes|)
    requires !Quiescing(s.kernel.scan) && Returning(s)
    ensures Worked(s, Step(s, ReturnCharge), p)
  {
    hide Inv, C.Step;
    var q := s.kernel.lanes.consumer.lane;
    CreditCount(s.credit, C.Action(q, C.ReturnShare(0)));
    CreditEffect(s.credit, q, C.ReturnShare(0));
    HeadOnly(s, q);
  }

  /** At most the first share is on its way back. */
  lemma HeadOnly(s: State, q: nat)
    requires Inv(s) && ShapeOk(s) && q < |s.callers|
    ensures forall j :: 1 <= j < |s.credit.slots[q].shares| ==> s.credit.slots[q].shares[j].Owned?
  {
    hide K.Inv, C.Inv, Clean, CallOk, OwnerOk, SafeAt, OwnedAt;
    ThisPlace(s, q);
  }

  lemma AcknowledgeWorks(s: State, p: nat)
    requires Sound(s) && ShapeOk(s) && p < |s.callers| && NoneMid(s.kernel, |s.kernel.lanes.lanes|)
    requires !Quiescing(s.kernel.scan) && s.kernel.lanes.consumer.Holding? && s.kernel.taking.Cleared? && !Returning(s)
    ensures Worked(s, Step(s, Kernel(K.Acknowledge)), p)
  {
    hide Inv, K.Step, Returning, K.ClearedAt;
    KernelHolds(s);
    AcknowledgeEnabled(s.kernel);
    AcknowledgeEffect(s.kernel);
    AcknowledgedNext(s.kernel);
  }

  lemma AcknowledgeEnabled(k: K.State)
    requires K.Inv(k) && k.lanes.consumer.Holding? && k.taking.Cleared?
    ensures K.Enabled(k, K.Acknowledge)
  {
    hide K.Inv;
    K.HeldCell(k);
  }

  lemma AcknowledgedNext(k: K.State)
    requires K.Enabled(k, K.Acknowledge)
    ensures var k' := K.Step(k, K.Acknowledge);
            k'.lanes.next == k.lanes.next + 1 && k'.lanes.accepted == k.lanes.accepted
  {}

  /** As long as a record waits and no publication is halfway, each access brings the worker closer to it. */
  lemma WorkerWorks(s: State, p: nat)
    requires Sound(s) && ShapeOk(s) && p < |s.callers| && NoneMid(s.kernel, |s.kernel.lanes.lanes|)
    requires s.kernel.lanes.next < s.kernel.lanes.accepted
    ensures Worked(s, Step(s, WorkNext(s)), p)
  {
    hide Inv, Step, Worked, NoneMid, WorkerOk, Returning;
    if Quiescing(s.kernel.scan) {
      QuiesceWorks(s, p);
    } else {
      match s.kernel.lanes.consumer
      case Resting => RestWorks(s, p);
      case Scanning(_, _, _) => ScanWorks(s, p);
      case Inspecting(_, _, _, _) => ScanWorks(s, p);
      case Holding(_, _, _) =>
        if s.kernel.taking.Untouched? {
          CheckWorks(s, p);
        } else if s.kernel.taking.Checked? {
          ClearWorks(s, p);
        } else if Returning(s) {
          ReturnWorks(s, p);
        } else {
          AcknowledgeWorks(s, p);
        }
    }
  }

  /** A published record that was not read waits for the consumer. */
  lemma RecordWaits(s: State, p: nat)
    requires Inv(s) && ShapeOk(s) && p < |s.callers|
    requires s.kernel.lanes.lanes[p].read < s.kernel.lanes.lanes[p].published
    ensures s.kernel.lanes.next < s.kernel.lanes.accepted
  {
    hide K.Inv, C.Inv, Clean;
    KernelHolds(s);
    LanesInv(s.kernel);
    LaneWaits(s.kernel.lanes, p);
  }

  lemma LaneWaits(l: L.State, p: nat)
    requires L.Inv(l) && p < |l.lanes| && l.lanes[p].read < l.lanes[p].published
    ensures l.next < l.accepted
  {
    var lane := l.lanes[p];
    assert L.LaneOk(lane, p, l.cells, l.admissions, l.next);
    assert lane.admitted[lane.read] < |l.admissions| && lane.admitted[lane.read] >= l.next;
  }

  lemma NextBounded(s: State)
    requires Inv(s)
    ensures s.kernel.lanes.next <= s.kernel.lanes.accepted
  {
    hide C.Inv, Clean, K.CellsOk, K.EntriesOk, K.ControlsOk, K.ScanOk, L.LaneOk;
  }

  /** The consumer can go on until it has read lane `p` up to any published position. */
  lemma {:induction false} DrainTo(s: State, p: nat, position: nat) returns (t: State)
    requires Sound(s) && ShapeOk(s) && p < |s.callers| && NoneMid(s.kernel, |s.kernel.lanes.lanes|)
    requires s.kernel.lanes.lanes[p].read <= position <= s.kernel.lanes.lanes[p].published
    ensures Reaches(s, t) && Sound(t) && Calm(s, t, p) && NoneMid(t.kernel, |t.kernel.lanes.lanes|)
    ensures t.kernel.lanes.lanes[p].read == position
    decreases s.kernel.lanes.accepted - s.kernel.lanes.next, WorkPhase(s), WorkLeft(s)
  {
    hide Inv, Step, Reaches, WorkerOk, NoneMid, WorkNext, WorkPhase, WorkLeft;
    if s.kernel.lanes.lanes[p].read == position {
      ReachesItself(s);
      CalmItself(s, p);
      t := s;
    } else {
      RecordWaits(s, p);
      WorkerWorks(s, p);
      var a := WorkNext(s);
      SoundStep(s, a);
      NextBounded(Step(s, a));
      t := DrainTo(Step(s, a), p, position);
      ReachesOnward(s, a, t);
      CalmOn(s, Step(s, a), t, p);
    }
  }

  /* --- A retirement in the window is overtaken -------------------------------------------------------------------- */

  /** Finisher `i` is at `f` on slot `p`, and generation `g` of the slot is being retired under a call admitted to
      it. */
  ghost predicate Course(s: State, i: nat, p: nat, f: Finisher, g: nat) {
    && Sound(s) && ShapeOk(s) && p < |s.callers| && i < |s.finishers| && s.finishers[i] == f
    && s.kernel.stages[p] == K.Admitted(g) && s.kernel.controls[p].generation == g
    && s.kernel.controls[p].state == (if Holds(f) then K.Reconciling else K.Retiring)
  }

  lemma CourseCalm(s: State, t: State, i: nat, p: nat, f: Finisher, g: nat)
    requires Course(s, i, p, f, g) && Sound(t) && Calm(s, t, p)
    ensures Course(t, i, p, f, g)
  {
    hide Sound;
  }

  lemma NotMid(s: State, p: nat)
    requires Inv(s) && ShapeOk(s) && p < |s.callers| && s.kernel.stages[p].Admitted?
    ensures !L.MidPublication(s.kernel.lanes.lanes[p].holder) && s.kernel.lanes.lanes[p].holder.Claimed?
    ensures |s.kernel.lanes.lanes[p].admitted| == s.kernel.lanes.lanes[p].published
  {
    hide K.Inv, C.Inv, Clean, K.StageCell;
    KernelParts(s, p);
  }

  /** Everything admitted on the lane is read, so no bytes are retained. */
  lemma NothingCounted(s: State, p: nat)
    requires Inv(s) && ShapeOk(s) && p < |s.callers| && s.kernel.stages[p].Admitted?
    requires s.kernel.lanes.lanes[p].read == s.kernel.lanes.lanes[p].published
    ensures s.credit.slots[p].logical == 0
  {
    hide K.Inv, C.Inv, Clean, CallOk, SafeAt, OwnedAt;
    KernelHolds(s);
    NotMid(s, p);
    ThisPlace(s, p);
    C.LogicalNotNegative(s.credit, p);
    if K.ClearedAt(s.kernel, p) {
      K.HeldCell(s.kernel);
    }
    assert |s.credit.slots[p].shares| == 0;
  }

  /** A finisher's access on the way. */
  lemma CourseStep(s: State, i: nat, p: nat, f: Finisher, g: nat, m: FinisherMove)
    requires Course(s, i, p, f, g) && !f.Away? && f.slot == p && Enabled(s, Finish(i, m)) && !m.Advance?
    requires Control(f, m).Some? ==> m.Exchange?
    ensures var s' := Step(s, Finish(i, m));
            && Course(s', i, p, Next(s, f, m), g) && s'.kernel.lanes == s.kernel.lanes
            && (Ledger(f, m).None? ==> s'.credit == s.credit)
            && (Ledger(f, m).Some? ==> s'.credit == Reconcile(s, p, Ledger(f, m).value))
  {
    hide Sound, K.Step, C.Step, Comes, K.ClearedAt;
    SoundStep(s, Finish(i, m));
    if Control(f, m).Some? {
      ControlEffect(s.kernel, p, Control(f, m).value);
    }
  }

  /** A finisher that overlooked the call can find the lane drained and nothing retained. */
  lemma Drains(s: State, i: nat, p: nat, f: Finisher, g: nat) returns (t: State)
    requires Course(s, i, p, f, g) && StaleOn(f, p, s.kernel.lanes.lanes[p].read)
    requires NoneMid(s.kernel, |s.kernel.lanes.lanes|)
    ensures Reaches(s, t) && Course(t, i, p, Drained(p), g) && t.credit.slots[p].logical == 0
    decreases if f.AtPositions? then 2 else if f.AtRead? then 1 else 0
  {
    hide Inv, Step, Reaches, WorkerOk;
    if f.Drained? {
      NotMid(s, p);
      PublishedAhead(s, p);
      t := DrainTo(s, p, s.kernel.lanes.lanes[p].published);
      CourseCalm(s, t, i, p, f, g);
      NothingCounted(t, p);
    } else if f.AtPositions? {
      PublishedAhead(s, p);
      CourseStep(s, i, p, f, g, LoadPublished);
      var a := Finish(i, LoadPublished);
      t := Drains(Step(s, a), i, p, AtRead(p, s.kernel.lanes.lanes[p].published), g);
      ReachesOnward(s, a, t);
    } else {
      FinisherAt(s, i);
      var u := DrainTo(s, p, f.published);
      CourseCalm(s, u, i, p, f, g);
      CourseStep(u, i, p, f, g, LoadRead);
      var a := Finish(i, LoadRead);
      t := Drains(Step(u, a), i, p, Drained(p), g);
      ReachesOnward(u, a, t);
      ReachesOn(s, u, t);
    }
  }

  lemma PublishedAhead(s: State, p: nat)
    requires Inv(s) && ShapeOk(s) && p < |s.callers|
    ensures s.kernel.lanes.lanes[p].read <= s.kernel.lanes.lanes[p].published
  {
    hide K.Inv, C.Inv, Clean, K.StageCell;
    KernelParts(s, p);
  }

  /** The reconciliation runs to its end. */
  lemma {:induction false} Reconciles(s: State, i: nat, p: nat, g: nat) returns (t: State)
    requires Course(s, i, p, Empty(p), g)
    ensures Reaches(s, t) && Course(t, i, p, Reconciled(p), g)
    decreases AccessesLeft(s.credit.slots[p].reconciler)
  {
    hide Inv, Step, Reaches, WorkerOk, C.Step;
    FinisherAt(s, i);
    var m := NextAccess(s.credit.slots[p].reconciler);
    var a := Finish(i, MoveCredit(m));
    AccessFollows(s.credit, p);
    CourseStep(s, i, p, Empty(p), g, MoveCredit(m));
    var u := Step(s, a);
    if u.credit.slots[p].reconciler.NoReconcile? {
      t := u;
      ReachesItself(u);
    } else {
      t := Reconciles(u, i, p, g);
    }
    ReachesOnward(s, a, t);
  }

  lemma AccessFollows(c: C.State, p: nat)
    requires p < |c.slots| && !c.slots[p].reconciler.NoReconcile?
    ensures var m := NextAccess(c.slots[p].reconciler); var c' := C.Step(c, C.Action(p, m));
            && C.CanMove(c.capacity, c.slots[p], m) && CreditMove(m) && |c'.slots| == |c.slots|
            && AccessesLeft(c'.slots[p].reconciler) < AccessesLeft(c.slots[p].reconciler)
  {}

  /** The rest of the retirement: the slot is taken, reconciled and advanced under the call. */
  lemma Advances(s: State, i: nat, p: nat, g: nat) returns (t: State)
    requires Course(s, i, p, Drained(p), g) && s.credit.slots[p].logical == 0
    ensures Reaches(s, t) && p < |t.kernel.controls|
    ensures t.kernel.controls[p].generation != g && LiveUnder(t.kernel, p, g)
  {
    hide Inv, Step, Reaches, WorkerOk, C.Step;
    CourseStep(s, i, p, Drained(p), g, Exchange);
    var s1 := Step(s, Finish(i, Exchange));
    FinisherAt(s1, i);
    CourseStep(s1, i, p, Exchanged(p), g, LoadLogical);
    var s2 := Step(s1, Finish(i, LoadLogical));
    var s3 := Reconciles(s2, i, p, g);
    AdvancedLast(s3, i, p, g);
    t := Step(s3, Finish(i, Advance));
    ReachesStep(s2, s3, Finish(i, Advance));
    ReachesOnward(s1, Finish(i, LoadLogical), t);
    ReachesOnward(s, Finish(i, Exchange), t);
  }

  lemma AdvancedLast(s: State, i: nat, p: nat, g: nat)
    requires Course(s, i, p, Reconciled(p), g)
    ensures var k := Step(s, Finish(i, Advance)).kernel;
            p < |k.controls| && k.controls[p].generation != g && LiveUnder(k, p, g)
  {
    hide Sound, K.Step, K.ClearedAt;
    ControlEffect(s.kernel, p, K.AdvanceGeneration);
  }

  /** The registration is retired, and a call that has seen its slot active passes the check of its generation. */
  lemma CallGoesOn(s: State, i: nat, p: nat, g: nat) returns (t: State)
    requires Sound(s) && ShapeOk(s) && p < |s.callers| && !s.exposed[p] && Takes(s.kernel.controls[p], g)
    requires Uncounted(s.kernel.controls[p], s.kernel.stages[p], s.callers[p])
    requires i < |s.finishers| && StaleOn(s.finishers[i], p, s.kernel.lanes.lanes[p].read)
    ensures Reaches(Step(s, Retire(p, g)), t) && Course(t, i, p, s.finishers[i], g)
    ensures t.kernel.lanes == s.kernel.lanes && t.credit == s.credit && t.kernel.maximum == s.kernel.maximum
  {
    hide Inv, Reaches, WorkerOk, K.Step, Window, K.ClearedAt, StaleOn;
    var r := Step(s, Retire(p, g));
    SoundStep(s, Retire(p, g));
    ControlEffect(s.kernel, p, K.Retire(g));
    CallFacts(s, p);
    StaleNotHolding(s.finishers[i], p, s.kernel.lanes.lanes[p].read);
    ReachesItself(r);
    if s.kernel.stages[p].Admitted? {
      t := r;
    } else {
      var a := Produce(p, K.CheckGeneration(g));
      t := Step(r, a);
      SoundStep(r, a);
      CheckPasses(r, p, g);
      ReachesStep(r, r, a);
    }
  }

  lemma StaleNotHolding(f: Finisher, p: nat, read: nat)
    requires StaleOn(f, p, read)
    ensures !Holds(f)
  {}

  /** On a slot that was never exposed the call without counted bytes is one of the current generation. */
  lemma CallFacts(s: State, p: nat)
    requires Inv(s) && ShapeOk(s) && p < |s.callers| && !s.exposed[p]
    requires Uncounted(s.kernel.controls[p], s.kernel.stages[p], s.callers[p])
    ensures var g := s.kernel.controls[p].generation;
            && s.callers[p] == Some(g) && (s.kernel.stages[p].Admitted? ==> s.kernel.stages[p] == K.Admitted(g))
  {
    hide K.Inv, C.Inv, Clean, SharesOk, OwnerOk, Stale, K.ClearedAt;
    ThisPlace(s, p);
  }

  lemma CheckPasses(s: State, p: nat, g: nat)
    requires Inv(s) && ShapeOk(s) && p < |s.callers| && s.kernel.stages[p].SawActive?
    requires s.callers[p] == Some(g) && s.kernel.controls[p].generation == g
    ensures var s' := Step(s, Produce(p, K.CheckGeneration(g)));
            && s'.kernel.stages[p] == K.Admitted(g) && s'.finishers == s.finishers
            && s'.kernel.controls == s.kernel.controls && s'.kernel.lanes == s.kernel.lanes
            && s'.credit == s.credit && s'.kernel.maximum == s.kernel.maximum
  {
    hide K.Inv, C.Inv, Clean, K.Step, K.ClearedAt, K.StageCell, L.PositionsOk;
    KernelParts(s, p);
    CheckEnabled(s.kernel, p, g);
    ProducerEffect(s.kernel, p, K.CheckGeneration(g));
  }

  lemma CheckEnabled(k: K.State, p: nat, g: nat)
    requires K.Working(k, p)
    ensures K.Enabled(k, K.ProducerStep(p, K.CheckGeneration(g)))
  {
    hide K.WriterPromises, K.Working;
  }

  lemma CourseNotMid(s: State, i: nat, p: nat, f: Finisher, g: nat)
    requires Course(s, i, p, f, g)
    ensures !L.MidPublication(s.kernel.lanes.lanes[p].holder)
  {
    hide Inv;
    NotMid(s, p);
  }

  lemma InsideWindow(s: State, p: nat, g: nat)
    requires Sound(s) && ShapeOk(s) && p < |s.callers| && !s.exposed[p]
    requires Takes(s.kernel.controls[p], g) && Window(s, p)
    ensures Overtaken(s, p, g)
  {
    hide Sound, Step, Run, StaleOn;
    var i :| 0 <= i < |s.finishers| && StaleOn(s.finishers[i], p, s.kernel.lanes.lanes[p].read);
    var r := Step(s, Retire(p, g));
    var t := CallGoesOn(s, i, p, g);
    CourseNotMid(t, i, p, s.finishers[i], g);
    var u := SettleLanes(t, 0, p);
    CourseCalm(t, u, i, p, s.finishers[i], g);
    var v := Drains(u, i, p, s.finishers[i], g);
    var w := Advances(v, i, p, g);
    ReachesOn(r, t, u);
    ReachesOn(r, u, v);
    ReachesOn(r, v, w);
    var schedule: seq<Action> :| Run(r, schedule) == w;
    assert Overtakes(s, schedule, p, g);
  }

  /** Retiring a registration during its own call lets the generation advance under the call, whatever the other threads
      go on to do, exactly when it happens in the window: the call has seen its slot active and has no bytes counted
      yet, and some finisher has overlooked it. A call with its reservation made, or one that no finisher overlooked, is
      safe even then. */
  lemma OvertakenIff(s: State, schedule: seq<Action>, p: nat)
    requires Start(s) && p < |Run(s, schedule).exposed| && !Run(s, schedule).exposed[p]
    requires p < |Run(s, schedule).kernel.controls|
    requires Takes(Run(s, schedule).kernel.controls[p], Run(s, schedule).kernel.controls[p].generation)
    ensures var t := Run(s, schedule); Overtaken(t, p, t.kernel.controls[p].generation) <==> Window(t, p)
  {
    hide Inv, Start, Run, Step, Overtakes, Window, WorkerOk;
    var t := Run(s, schedule);
    var g := t.kernel.controls[p].generation;
    RunInv(s, schedule);
    WorkerRun(s, schedule);
    ShapeHolds(t);
    if Window(t, p) {
      InsideWindow(t, p, g);
    } else {
      forall more: seq<Action>
        ensures !Overtakes(t, more, p, g)
      {
        OutsideWindow(t, more, p, g);
      }
    }
  }

  /* --- Such a call exists --------------------------------------------------------------------------------- */

  /** One lane of one cell, one finisher. */
  function Small(lane: L.Lane, c: K.Control, stage: K.Stage, f: Finisher, caller: Option<nat>, issued: nat): State {
    var handle := L.RecordHandle(0, 0, 0, 0, 0);
    State(K.State(L.State([lane], [L.Envelope(handle, 0)], 0, 0, false, L.Resting, [], []), 128, true, [c],
                  [K.Cell(K.Reset, None, None, 0)], [stage], K.Untouched, K.NoScan, [0], 0),
          C.DoublingAt(128, 128, 0), [f], [caller], [issued], [false], false)
  }

  const FREE_LANE: L.Lane := L.Lane(0, 1, 0, 0, 0, false, L.Nobody, [])
  const CLAIMED_LANE: L.Lane := L.Lane(0, 1, 0, 0, 0, true, L.Claimed(0), [])
  const FREE_SLOT: K.Control := K.Control(K.Free, 1, false)
  const ACTIVE_SLOT: K.Control := K.Control(K.Active, 1, false)

  lemma SmallStarts()
    ensures Start(Small(FREE_LANE, FREE_SLOT, K.Fresh, Away, None, 0))
  {}

  /** A producer registers, and another thread finds its lane drained. */
  lemma FoundDrained(s: State)
    requires s == Small(FREE_LANE, FREE_SLOT, K.Fresh, Away, None, 0)
    ensures Reaches(s, Small(FREE_LANE, ACTIVE_SLOT, K.Fresh, Drained(0), None, 1))
  {
    hide Reaches, Run, K.WriterPromises;
    var s1 := Small(FREE_LANE, K.Control(K.Active, 1, true), K.Fresh, Away, None, 0);
    var s2 := Small(FREE_LANE, ACTIVE_SLOT, K.Fresh, Away, None, 1);
    ReachesItself(s);
    assert Step(s, Kernel(K.ControlStep(0, K.Register))) == s1;
    ReachesStep(s, s, Kernel(K.ControlStep(0, K.Register)));
    assert Step(s1, Confirm(0)) == s2;
    ReachesStep(s, s1, Confirm(0));
    LaneTested(s);
  }

  lemma LaneTested(s: State)
    requires Reaches(s, Small(FREE_LANE, ACTIVE_SLOT, K.Fresh, Away, None, 1))
    ensures Reaches(s, Small(FREE_LANE, ACTIVE_SLOT, K.Fresh, Drained(0), None, 1))
  {
    hide Reaches, Run, K.WriterPromises;
    var s0 := Small(FREE_LANE, ACTIVE_SLOT, K.Fresh, Away, None, 1);
    var s1 := Small(FREE_LANE, ACTIVE_SLOT, K.Fresh, AtFlag(0), None, 1);
    var s2 := Small(FREE_LANE, ACTIVE_SLOT, K.Fresh, AtPositions(0), None, 1);
    var s3 := Small(FREE_LANE, ACTIVE_SLOT, K.Fresh, AtRead(0, 0), None, 1);
    assert Step(s0, Finish(0, Enter(0))) == s1;
    ReachesStep(s, s0, Finish(0, Enter(0)));
    assert Step(s1, Finish(0, TestFlag)) == s2;
    ReachesStep(s, s1, Finish(0, TestFlag));
    assert Step(s2, Finish(0, LoadPublished)) == s3;
    ReachesStep(s, s2, Finish(0, LoadPublished));
    assert Step(s3, Finish(0, LoadRead)) == Small(FREE_LANE, ACTIVE_SLOT, K.Fresh, Drained(0), None, 1);
    ReachesStep(s, s3, Finish(0, LoadRead));
  }

  /** The producer then claims its lane. */
  lemma LaneClaimed(s: State)
    requires Reaches(s, Small(FREE_LANE, ACTIVE_SLOT, K.Fresh, Drained(0), None, 1))
    ensures Reaches(s, Small(CLAIMED_LANE, ACTIVE_SLOT, K.Fresh, Drained(0), None, 1))
  {
    hide Reaches, Run, K.WriterPromises;
    var s0 := Small(FREE_LANE, ACTIVE_SLOT, K.Fresh, Drained(0), None, 1);
    var s1 := Small(L.Lane(0, 1, 0, 0, 0, true, L.Testing, []), ACTIVE_SLOT, K.Fresh, Drained(0), None, 1);
    assert Step(s0, Kernel(K.LaneStep(0, L.SetFlag))) == s1;
    ReachesStep(s, s0, Kernel(K.LaneStep(0, L.SetFlag)));
    assert Step(s1, Kernel(K.LaneStep(0, L.ReadPositions))) ==
           Small(CLAIMED_LANE, ACTIVE_SLOT, K.Fresh, Drained(0), None, 1);
    ReachesStep(s, s1, Kernel(K.LaneStep(0, L.ReadPositions)));
  }

  /** The call stands at `stage` on the claimed lane, and the finisher still believes the lane drained. */
  ghost predicate Stands(s: State, stage: K.Stage, caller: Option<nat>) {
    && s.exposed == [false] && s.kernel.open && s.kernel.stages == [stage] && s.kernel.controls == [ACTIVE_SLOT]
    && s.kernel.lanes.lanes == [CLAIMED_LANE] && s.finishers == [Drained(0)]
    && s.callers == [caller] && s.issued == [1] && s.credit == C.DoublingAt(128, 128, 0) && s.kernel.maximum == 128
  }

  lemma AtWork(s: State, stage: K.Stage, caller: Option<nat>)
    requires Inv(s) && Stands(s, stage, caller)
    ensures K.Working(s.kernel, 0)
  {
    hide K.Inv, C.Inv, Clean, K.StageCell, L.PositionsOk, K.StageOk;
    KernelParts(s, 0);
  }

  lemma CheckAllowed(k: K.State, m: K.ProducerMove)
    requires K.Working(k, 0) && (m.CheckAdmission? || m.CheckState?)
    ensures K.Enabled(k, K.ProducerStep(0, m))
  {
    hide K.WriterPromises, K.Working;
  }

  lemma CallPassed(s: State)
    requires Inv(s) && Stands(s, K.Fresh, None)
    ensures Stands(Step(s, Call(0, 1)), K.SawOpen, Some(1))
  {
    hide Inv, K.Step, K.Enabled, K.WriterPromises, K.Working, K.ClaimedCell, K.ClearedAt;
    AtWork(s, K.Fresh, None);
    CheckAllowed(s.kernel, K.CheckAdmission);
    ProducerEffect(s.kernel, 0, K.CheckAdmission);
  }

  lemma CheckPassed(s: State)
    requires Inv(s) && Stands(s, K.SawOpen, Some(1))
    ensures Stands(Step(s, Produce(0, K.CheckState)), K.SawActive, Some(1))
  {
    hide Inv, K.Step, K.Enabled, K.WriterPromises, K.Working, K.ClaimedCell, K.ClearedAt;
    AtWork(s, K.SawOpen, Some(1));
    CheckAllowed(s.kernel, K.CheckState);
    ProducerEffect(s.kernel, 0, K.CheckState);
  }

  lemma StartReaches(s: State, t: State)
    requires Start(s) && Reaches(s, t)
    ensures Inv(t)
  {
    hide Start, Inv;
    var schedule: seq<Action> :| Run(s, schedule) == t;
    RunInv(s, schedule);
  }

  /** And sees its slot active. */
  lemma CallSeesActive(s: State, t: State) returns (u: State)
    requires Start(s) && Reaches(s, t) && Stands(t, K.Fresh, None)
    ensures Reaches(s, u) && Stands(u, K.SawActive, Some(1))
  {
    hide Start, Reaches, Step, Stands, Inv;
    StartReaches(s, t);
    CallPassed(t);
    ReachesStep(s, t, Call(0, 1));
    var t1 := Step(t, Call(0, 1));
    StartReaches(s, t1);
    CheckPassed(t1);
    ReachesStep(s, t1, Produce(0, K.CheckState));
    u := Step(t1, Produce(0, K.CheckState));
  }

  /** A state that some run reaches in which a call has seen its slot active and a finisher has overlooked it. */
  lemma OverlookedCall() returns (s: State, t: State)
    ensures Start(s) && Reaches(s, t) && Stands(t, K.SawActive, Some(1))
  {
    s := Small(FREE_LANE, FREE_SLOT, K.Fresh, Away, None, 0);
    SmallStarts();
    FoundDrained(s);
    LaneClaimed(s);
    t := CallSeesActive(s, Small(CLAIMED_LANE, ACTIVE_SLOT, K.Fresh, Drained(0), None, 1));
  }

  /** A run in which retiring the registration now would let its generation advance under its own call. */
  lemma OvertakingHappens()
    ensures exists s: State, schedule: seq<Action> ::
              Start(s) && Sheltered(Run(s, schedule)) && Overtaken(Run(s, schedule), 0, 1)
  {
    var s, t := OverlookedCall();
    var schedule: seq<Action> :| Run(s, schedule) == t;
    hide Start, Run, Overtaken;
    assert StaleOn(t.finishers[0], 0, 0);
    assert Window(t, 0);
    OvertakenIff(s, schedule, 0);
  }

  /* --- And its slot's credit can be doubled ------------------------------------------------------------------ */

  /** The call's own access to the ledger, on the way. */
  lemma CourseCredit(s: State, i: nat, p: nat, f: Finisher, g: nat, m: C.SlotMove)
    requires Course(s, i, p, f, g) && Fits(K.Admitted(g), s.kernel.maximum, m)
    ensures var s' := Step(s, Credit(p, m));
            Course(s', i, p, f, g) && s'.credit == C.Step(s.credit, C.Action(p, m)) && s'.kernel == s.kernel
  {
    hide Sound, C.Step;
    SoundStep(s, Credit(p, m));
  }

  /** The run of the ledger up to its access `k`, made by a call that was overlooked and the finisher. */
  ghost predicate Doubling(s: State, k: nat) {
    && Course(s, 0, 0, if k == 0 then Exchanged(0) else Empty(0), 1)
    && s.credit == C.DoublingAt(128, 128, k) && s.kernel.maximum == 128
  }

  lemma DoublingAccess(s: State, k: nat) returns (t: State)
    requires Doubling(s, k) && k < 8
    ensures Reaches(s, t) && Doubling(t, k + 1)
  {
    hide Sound, Step, Reaches, C.Step, K.Step, C.DoublingAt;
    var m := C.DoublingMove(128, k);
    C.DoublingStep(128, 128, k);
    DoublingReconciler(k);
    ReachesItself(s);
    if k == 2 || k == 3 || k == 4 || k == 7 {
      CourseCredit(s, 0, 0, Empty(0), 1, m);
      t := Step(s, Credit(0, m));
      ReachesStep(s, s, Credit(0, m));
    } else {
      var part := if k == 0 then LoadLogical else MoveCredit(m);
      CourseStep(s, 0, 0, if k == 0 then Exchanged(0) else Empty(0), 1, part);
      MaximumKept(s, Finish(0, part));
      t := Step(s, Finish(0, part));
      ReachesStep(s, s, Finish(0, part));
    }
  }

  lemma DoublingReconciler(k: nat)
    requires k < 8
    ensures var c, c' := C.DoublingAt(128, 128, k), C.DoublingAt(128, 128, k + 1);
            && |c.slots| == |c'.slots| == 1 && c.slots[0].logical == 0
            && !c'.slots[0].reconciler.NoReconcile?
  {}

  lemma MaximumKept(s: State, a: Action)
    ensures Step(s, a).kernel.maximum == s.kernel.maximum
  {
    hide K.Step, C.Step, Window, Comes, K.Enabled;
    KernelTaken(s, a);
    KernelMaximum(s.kernel, KernelPart(s, a));
  }

  lemma KernelMaximum(k: K.State, a: K.Action)
    ensures K.Step(k, a).maximum == k.maximum
  {
    hide K.Produce, K.WriterPromises, K.Scanned, K.Valid, L.Step, L.Enabled, K.Controlled;
  }

  lemma {:induction false} DoublingOn(s: State, k: nat) returns (t: State)
    requires Doubling(s, k) && k <= 8
    ensures Reaches(s, t) && Doubling(t, 8)
    decreases 8 - k
  {
    hide Doubling, Reaches;
    if k == 8 {
      t := s;
      ReachesItself(s);
    } else {
      var u := DoublingAccess(s, k);
      t := DoublingOn(u, k + 1);
      ReachesOn(s, u, t);
    }
  }

  /** The call's bytes are counted after the finisher's test, and the finisher zeroes the credit the call was funded
      with. */
  lemma DoublingLast(s: State) returns (t: State)
    requires Doubling(s, 8)
    ensures Reaches(s, t) && t.credit == C.DoublingAt(128, 128, 10)
  {
    hide Sound, Reaches, C.Step, K.Step, C.DoublingAt, K.ClearedAt;
    C.DoublingStep(128, 128, 8);
    C.DoublingStep(128, 128, 9);
    DoublingTail();
    CallWorking(s, 0);
    var u := Step(s, CountCharge(0));
    t := Step(u, Finish(0, MoveCredit(C.ReconcileStore)));
    ReachesItself(s);
    ReachesStep(s, s, CountCharge(0));
    ReachesStep(s, u, Finish(0, MoveCredit(C.ReconcileStore)));
  }

  lemma DoublingTail()
    ensures |C.DoublingAt(128, 128, 8).slots| == 1 && C.DoublingAt(128, 128, 8).slots[0].owner.Charged?
  {}

  lemma CallWorking(s: State, p: nat)
    requires Sound(s) && ShapeOk(s) && p < |s.callers| && s.kernel.stages[p].Admitted?
    ensures K.Working(s.kernel, p)
  {
    hide K.Inv, C.Inv, Clean, K.StageCell, L.PositionsOk, WorkerOk;
    KernelParts(s, p);
  }

  lemma StartSound(s: State, t: State)
    requires Start(s) && Reaches(s, t)
    ensures Sound(t) && ShapeOk(t)
  {
    hide Start, Inv, WorkerOk;
    var schedule: seq<Action> :| Run(s, schedule) == t;
    RunInv(s, schedule);
    WorkerRun(s, schedule);
    ShapeHolds(t);
  }

  /** The registration is retired, and the finisher takes the slot. */
  lemma DoublingBegins(s: State) returns (t: State)
    requires Sound(s) && ShapeOk(s) && Stands(s, K.SawActive, Some(1))
    ensures Reaches(s, t) && Doubling(t, 0)
  {
    hide Sound, Reaches, Step, C.DoublingAt;
    var u := CallGoesOn(s, 0, 0, 1);
    CourseStep(u, 0, 0, Drained(0), 1, Exchange);
    MaximumKept(u, Finish(0, Exchange));
    t := Step(u, Finish(0, Exchange));
    ReachesOnward(s, Retire(0, 1), u);
    ReachesStep(s, u, Finish(0, Exchange));
  }

  /** A run that retires a registration in the window and ends with the central budget whole while a reservation of all
      of it is out. */
  lemma OvertakingDoublesCredit() returns (s: State, t: State)
    ensures Start(s) && Reaches(s, t) && !C.Conserves(t.credit)
    ensures t.credit.central == t.credit.capacity == 128
    ensures |t.credit.slots| == 1 && t.credit.slots[0].owner == C.Reserved(128, 128)
  {
    hide Start, Reaches, Sound, Stands, Doubling, C.DoublingAt, C.Conserves, C.Held, C.Start, C.Reaches;
    var u: State;
    s, u := OverlookedCall();
    StartSound(s, u);
    var v := DoublingBegins(u);
    var w := DoublingOn(v, 0);
    t := DoublingLast(w);
    ReachesOn(s, u, v);
    ReachesOn(s, v, w);
    ReachesOn(s, w, t);
    C.CreditDoubled(128, 128);
    DoublingEnd();
  }

  lemma DoublingEnd()
    ensures |C.DoublingAt(128, 128, 10).slots| == 1
  {}
}
