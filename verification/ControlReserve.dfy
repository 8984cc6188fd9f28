/** The bounded reserve of control nodes (src/control/control_reserve.cpp).

A node is shared by whoever still has business with it: the caller's handle, the completion, a
callback registration under way and the callback itself. Each of them is a token that remembers the
generation it was issued for; each block run under the node's or the domain's lock is one step of the
machine. History fields count what happened to a node.
*/
module ControlReserve {
  import opened Options

  datatype CallbackState = Empty | Installing | Armed | Queued | Running | Done

  /** The caller's handle. */
  datatype Handle = NoHandle | Handle(generation: nat)

  /** The completion: unused, then on its way through TryComplete. */
  datatype Completer =
    | NoCompletion
    | Unused(generation: nat)
    | CompleterEnqueueing(generation: nat)
    | CompleterLeaving(generation: nat)

  /** A call of RegisterCallback that has pinned the node. */
  datatype Installer =
    | NoInstall
    | Moving(generation: nat)
    | InstallerEnqueueing(generation: nat)
    | InstallerLeaving(generation: nat)

  /** The reference held for a queued callback. */
  datatype Runner = NoRun | Owed | Linked | Popped | Invoking(generation: nat) | RunnerLeaving(generation: nat)

  /** A release that dropped the last reference goes on to recycle the node in two blocks. */
  datatype Recycler = Idle | Resetting | Freeing

  datatype Node = Node(
    generation: nat, owners: nat, completed: bool, result: nat, callback: CallbackState, nextFree: Option<nat>,
    handle: Handle, completer: Completer, installer: Installer, runner: Runner, recycler: Recycler,
    starts: nat, recycles: nat, queued: nat, ran: nat, seen: Option<nat>)

  datatype State = State(nodes: seq<Node>, freeHead: Option<nat>, inUse: nat, tasks: seq<nat>, freeList: seq<nat>)

  /** Blocks under a node's lock. */
  datatype Move =
    | ReleaseHandle
    | Complete(result: nat)
    | ReleaseCompletion
    | Install(generation: nat)
    | FinishInstall
    | ReleaseInstall
    | RunCallback
    | FinishCallback
    | ReleaseCallback
    | Reset

  datatype Action =
    | TryStart
    | AtNode(index: nat, move: Move)
    | Enqueue(index: nat)
    | Pop
    | Free(index: nat)

  /** Drops one reference; the last one starts recycling. */
  function Released(n: Node, generation: nat): Node {
    if n.generation != generation || n.owners == 0 then n
    else n.(owners := n.owners - 1, recycler := if n.owners == 1 then Resetting else n.recycler)
  }

  function Moved(n: Node, move: Move): Node {
    match move
    case ReleaseHandle =>
      if n.handle.NoHandle? then n else Released(n, n.handle.generation).(handle := NoHandle)
    case Complete(result) =>
      if !n.completer.Unused? then n
      else if n.generation != n.completer.generation || n.completed
      then n.(completer := CompleterLeaving(n.completer.generation))
      else
        var armed := n.callback.Armed?;
        n.(result := result, completed := true,
           callback := if armed then Queued else n.callback,
           owners := if armed then n.owners + 1 else n.owners,
           queued := if armed then n.queued + 1 else n.queued,
           runner := if armed then Owed else n.runner,
           completer := if armed then CompleterEnqueueing(n.completer.generation)
                        else CompleterLeaving(n.completer.generation))
    case ReleaseCompletion =>
      if !n.completer.CompleterLeaving? then n else Released(n, n.completer.generation).(completer := NoCompletion)
    case Install(generation) =>
      if n.handle != Handle(generation) || n.generation != generation || !n.callback.Empty? then n
      else n.(callback := Installing, owners := n.owners + 1, installer := Moving(generation))
    case FinishInstall =>
      if !n.installer.Moving? then n
      else
        var late := n.completed;
        n.(callback := if late then Queued else Armed,
           owners := if late then n.owners + 1 else n.owners,
           queued := if late then n.queued + 1 else n.queued,
           runner := if late then Owed else n.runner,
           installer := if late then InstallerEnqueueing(n.installer.generation)
                        else InstallerLeaving(n.installer.generation))
    case ReleaseInstall =>
      if !n.installer.InstallerLeaving? then n else Released(n, n.installer.generation).(installer := NoInstall)
    case RunCallback =>
      if !n.runner.Popped? then n
      else if !n.callback.Queued? then n.(runner := NoRun)
      else n.(callback := Running, runner := Invoking(n.generation), ran := n.ran + 1, seen := Some(n.result))
    case FinishCallback =>
      if !n.runner.Invoking? then n else n.(callback := Done, runner := RunnerLeaving(n.runner.generation))
    case ReleaseCallback =>
      if !n.runner.RunnerLeaving? then n else Released(n, n.runner.generation).(runner := NoRun)
    case Reset =>
      if !n.recycler.Resetting? then n
      else n.(completed := false, result := 0, owners := 0, callback := Empty, recycler := Freeing)
  }

  function Started(n: Node): Node {
    Node(n.generation + 1, 2, false, 0, Empty, None, Handle(n.generation + 1), Unused(n.generation + 1),
         NoInstall, NoRun, Idle, n.starts + 1, n.recycles, 0, 0, None)
  }

  /** Whoever queued the callback now links its task. */
  function Enqueued(n: Node): Node {
    n.(runner := Linked,
       completer := if n.completer.CompleterEnqueueing? then CompleterLeaving(n.completer.generation) else n.completer,
       installer := if n.installer.InstallerEnqueueing? then InstallerLeaving(n.installer.generation) else n.installer)
  }

  predicate MustEnqueue(n: Node) {
    n.completer.CompleterEnqueueing? || n.installer.InstallerEnqueueing?
  }

  predicate Enabled(s: State, a: Action) {
    match a
    case TryStart => s.freeHead.Some? && s.freeHead.value < |s.nodes|
    case AtNode(i, _) => i < |s.nodes|
    case Enqueue(i) => i < |s.nodes| && MustEnqueue(s.nodes[i])
    case Pop => s.tasks != [] && s.tasks[0] < |s.nodes|
    case Free(i) => i < |s.nodes| && s.nodes[i].recycler.Freeing?
  }

  function Step(s: State, a: Action): State {
    if !Enabled(s, a) then s else
    match a
    case TryStart =>
      var i := s.freeHead.value;
      s.(nodes := s.nodes[i := Started(s.nodes[i])], freeHead := s.nodes[i].nextFree, inUse := s.inUse + 1,
         freeList := if s.freeList == [] then [] else s.freeList[1..])
    case AtNode(i, move) => s.(nodes := s.nodes[i := Moved(s.nodes[i], move)])
    case Enqueue(i) => s.(nodes := s.nodes[i := Enqueued(s.nodes[i])], tasks := s.tasks + [i])
    case Pop => s.(nodes := s.nodes[s.tasks[0] := s.nodes[s.tasks[0]].(runner := Popped)], tasks := s.tasks[1..])
    case Free(i) =>
      s.(nodes := s.nodes[i := Freed(s.nodes[i], s.freeHead)],
         freeHead := Some(i), inUse := if s.inUse == 0 then 0 else s.inUse - 1, freeList := [i] + s.freeList)
  }

  function Run(s: State, schedule: seq<Action>): State {
    if schedule == [] then s
    else Step(Run(s, schedule[..|schedule| - 1]), schedule[|schedule| - 1])
  }

  /* --- One node ------------------------------------------------------------------------------------ */

  function Count(b: bool): nat { if b then 1 else 0 }

  /** The references that are out. */
  function Tokens(n: Node): nat {
    Count(!n.handle.NoHandle?) + Count(!n.completer.NoCompletion?) + Count(!n.installer.NoInstall?) +
    Count(!n.runner.NoRun?)
  }

  predicate InUse(n: Node) { Tokens(n) > 0 || !n.recycler.Idle? }

  /** Every reference was issued for the node's present life. */
  predicate Current(n: Node) {
    && (n.handle.Handle? ==> n.handle.generation == n.generation)
    && (!n.completer.NoCompletion? ==> n.completer.generation == n.generation)
    && (!n.installer.NoInstall? ==> n.installer.generation == n.generation)
    && (n.runner.Invoking? || n.runner.RunnerLeaving? ==> n.runner.generation == n.generation)
  }

  predicate CallbackOk(n: Node) {
    match n.callback
    case Empty => n.installer.NoInstall? && n.runner.NoRun? && n.queued == n.ran == 0
    case Installing => n.installer.Moving? && n.runner.NoRun? && n.queued == n.ran == 0
    case Armed =>
      (n.installer.NoInstall? || n.installer.InstallerLeaving?) && n.runner.NoRun? && !n.completed &&
      n.queued == n.ran == 0
    case Queued =>
      (n.runner.Owed? || n.runner.Linked? || n.runner.Popped?) && n.completed && n.queued == 1 && n.ran == 0
    case Running => n.runner.Invoking? && n.completed && n.queued == n.ran == 1 && n.seen == Some(n.result)
    case Done =>
      (n.runner.RunnerLeaving? || n.runner.NoRun?) && n.completed && n.queued == n.ran == 1 && n.seen == Some(n.result)
  }

  predicate NodeOk(n: Node) {
    && n.owners == Tokens(n) && Current(n)
    && (!n.recycler.Idle? ==> Tokens(n) == 0)
    && n.starts == n.recycles + Count(InUse(n)) && n.generation == n.starts
    && (Tokens(n) > 0 ==> CallbackOk(n) && (n.completed <==> !n.completer.Unused?))
    && (n.runner.Owed? <==> MustEnqueue(n))
    && !(n.completer.CompleterEnqueueing? && n.installer.InstallerEnqueueing?)
    && (n.installer.Moving? ==> n.callback.Installing?)
    && (n.recycler.Freeing? || !InUse(n) ==> n.callback.Empty? && !n.completed)
  }

  lemma MovedOk(n: Node, move: Move)
    requires NodeOk(n)
    ensures NodeOk(Moved(n, move))
    ensures InUse(n) == InUse(Moved(n, move))
    ensures n.runner.Linked? == Moved(n, move).runner.Linked?
    ensures Moved(n, move).nextFree == n.nextFree
  {}

  lemma StartedOk(n: Node)
    requires NodeOk(n) && !InUse(n)
    ensures NodeOk(Started(n)) && InUse(Started(n)) && !Started(n).runner.Linked? && !n.runner.Linked?
  {}

  lemma EnqueuedOk(n: Node)
    requires NodeOk(n) && MustEnqueue(n)
    ensures NodeOk(Enqueued(n)) && InUse(n) && InUse(Enqueued(n)) && !n.runner.Linked? && Enqueued(n).runner.Linked?
    ensures Enqueued(n).nextFree == n.nextFree
  {}

  lemma PoppedOk(n: Node)
    requires NodeOk(n) && n.runner.Linked?
    ensures NodeOk(n.(runner := Popped)) && InUse(n) && InUse(n.(runner := Popped))
  {}

  function Freed(n: Node, freeHead: Option<nat>): Node {
    n.(nextFree := freeHead, recycler := Idle, recycles := n.recycles + 1)
  }

  lemma FreedOk(n: Node, freeHead: Option<nat>)
    requires NodeOk(n) && n.recycler.Freeing?
    ensures NodeOk(Freed(n, freeHead)) && InUse(n) && !InUse(Freed(n, freeHead))
    ensures !n.runner.Linked? && !Freed(n, freeHead).runner.Linked? && Freed(n, freeHead).nextFree == freeHead
  {}

  /* --- The reserve ----------------------------------------------------------------------------------- */

  function FreeAt(freeList: seq<nat>, k: nat): Option<nat> {
    if k < |freeList| then Some(freeList[k]) else None
  }

  predicate Distinct(list: seq<nat>) {
    forall j, k :: 0 <= j < k < |list| ==> list[j] != list[k]
  }

  predicate NodesOk(nodes: seq<Node>) {
    forall i :: 0 <= i < |nodes| ==> NodeOk(nodes[i])
  }

  predicate LinkOk(nodes: seq<Node>, freeList: seq<nat>, k: nat) {
    k < |freeList| && freeList[k] < |nodes| && nodes[freeList[k]].nextFree == FreeAt(freeList, k + 1)
  }

  /** The links from the head walk the free list, which holds exactly the nodes nobody uses. */
  predicate FreeOk(nodes: seq<Node>, freeHead: Option<nat>, freeList: seq<nat>) {
    && Distinct(freeList) && freeHead == FreeAt(freeList, 0)
    && (forall k :: 0 <= k < |freeList| ==> freeList[k] < |nodes| && !InUse(nodes[freeList[k]]))
    && (forall k :: 0 <= k < |freeList| ==> LinkOk(nodes, freeList, k))
    && (forall i :: 0 <= i < |nodes| && !InUse(nodes[i]) ==> i in freeList)
  }

  /** The dispatcher's queue holds exactly the linked tasks. */
  predicate TasksOk(nodes: seq<Node>, tasks: seq<nat>) {
    && Distinct(tasks)
    && (forall k :: 0 <= k < |tasks| ==> tasks[k] < |nodes| && nodes[tasks[k]].runner.Linked?)
    && (forall i :: 0 <= i < |nodes| && nodes[i].runner.Linked? ==> i in tasks)
  }

  predicate Inv(s: State) {
    && NodesOk(s.nodes) && FreeOk(s.nodes, s.freeHead, s.freeList) && TasksOk(s.nodes, s.tasks)
    && |s.freeList| + s.inUse == |s.nodes|
  }

  lemma NodesReplace(nodes: seq<Node>, i: nat, n: Node)
    requires NodesOk(nodes) && i < |nodes| && NodeOk(n)
    ensures NodesOk(nodes[i := n])
  {
    hide NodeOk;
  }

  lemma FreeReplace(nodes: seq<Node>, freeHead: Option<nat>, freeList: seq<nat>, i: nat, n: Node)
    requires FreeOk(nodes, freeHead, freeList) && i < |nodes|
    requires InUse(n) == InUse(nodes[i]) && n.nextFree == nodes[i].nextFree
    ensures FreeOk(nodes[i := n], freeHead, freeList)
  {
    hide InUse;
    var nodes' := nodes[i := n];
    forall k | 0 <= k < |freeList|
      ensures LinkOk(nodes', freeList, k)
    {
      assert LinkOk(nodes, freeList, k);
    }
  }

  /** The head node is taken. */
  lemma FreeTake(nodes: seq<Node>, freeHead: Option<nat>, freeList: seq<nat>, i: nat, n: Node)
    requires FreeOk(nodes, freeHead, freeList) && freeHead == Some(i) && i < |nodes| && InUse(n)
    ensures freeList != [] && !InUse(nodes[i]) && FreeOk(nodes[i := n], nodes[i].nextFree, freeList[1..])
  {
    hide InUse;
    var list, nodes' := freeList[1..], nodes[i := n];
    assert freeList[0] == i && LinkOk(nodes, freeList, 0);
    forall k | 0 <= k < |list|
      ensures LinkOk(nodes', list, k)
    {
      assert LinkOk(nodes, freeList, k + 1);
    }
    forall j | 0 <= j < |nodes'| && !InUse(nodes'[j])
      ensures j in list
    {
      assert j in freeList && j != i;
      var k :| 0 <= k < |freeList| && freeList[k] == j;
      assert list[k - 1] == j;
    }
  }

  /** A node comes back at the head. */
  lemma FreeReturn(nodes: seq<Node>, freeHead: Option<nat>, freeList: seq<nat>, i: nat, n: Node)
    requires FreeOk(nodes, freeHead, freeList) && i < |nodes| && InUse(nodes[i]) && !InUse(n) && n.nextFree == freeHead
    ensures FreeOk(nodes[i := n], Some(i), [i] + freeList)
  {
    hide InUse;
    var list, nodes' := [i] + freeList, nodes[i := n];
    forall k | 0 <= k < |list|
      ensures LinkOk(nodes', list, k)
    {
      if k > 0 {
        assert LinkOk(nodes, freeList, k - 1);
      }
    }
    forall j | 0 <= j < |nodes'| && !InUse(nodes'[j])
      ensures j in list
    {
      if j != i {
        assert j in freeList;
        var k :| 0 <= k < |freeList| && freeList[k] == j;
        assert list[k + 1] == j;
      } else {
        assert list[0] == i;
      }
    }
  }

  lemma TasksReplace(nodes: seq<Node>, tasks: seq<nat>, i: nat, n: Node)
    requires TasksOk(nodes, tasks) && i < |nodes| && n.runner.Linked? == nodes[i].runner.Linked?
    ensures TasksOk(nodes[i := n], tasks)
  {}

  lemma TasksPush(nodes: seq<Node>, tasks: seq<nat>, i: nat, n: Node)
    requires TasksOk(nodes, tasks) && i < |nodes| && n.runner.Linked? && !nodes[i].runner.Linked?
    ensures TasksOk(nodes[i := n], tasks + [i]) && i !in tasks
  {}

  lemma TasksPop(nodes: seq<Node>, tasks: seq<nat>, n: Node)
    requires TasksOk(nodes, tasks) && tasks != [] && !n.runner.Linked?
    ensures tasks[0] < |nodes| && TasksOk(nodes[tasks[0] := n], tasks[1..])
  {
    var list, nodes' := tasks[1..], nodes[tasks[0] := n];
    forall j | 0 <= j < |nodes'| && nodes'[j].runner.Linked?
      ensures j in list
    {
      assert j in tasks && j != tasks[0];
      var k :| 0 <= k < |tasks| && tasks[k] == j;
      assert list[k - 1] == j;
    }
  }

  lemma NodeAt(s: State, i: nat)
    requires NodesOk(s.nodes) && i < |s.nodes|
    ensures NodeOk(s.nodes[i])
  {
    hide NodeOk;
  }

  lemma TryStartInv(s: State)
    requires Inv(s) && Enabled(s, TryStart)
    ensures Inv(Step(s, TryStart))
  {
    hide NodeOk, InUse, NodesOk, FreeOk, TasksOk, Started;
    var i := s.freeHead.value;
    NodeAt(s, i);
    HeadFree(s);
    StartedOk(s.nodes[i]);
    NodesReplace(s.nodes, i, Started(s.nodes[i]));
    FreeTake(s.nodes, s.freeHead, s.freeList, i, Started(s.nodes[i]));
    TasksReplace(s.nodes, s.tasks, i, Started(s.nodes[i]));
  }

  /** The node TryStart takes is one that nobody refers to. */
  lemma HeadFree(s: State)
    requires FreeOk(s.nodes, s.freeHead, s.freeList) && s.freeHead.Some?
    ensures s.freeList != [] && s.freeHead.value < |s.nodes| && !InUse(s.nodes[s.freeHead.value])
  {
    hide InUse;
    assert s.freeList[0] == s.freeHead.value;
  }

  lemma MoveInv(s: State, i: nat, move: Move)
    requires Inv(s) && i < |s.nodes|
    ensures Inv(Step(s, AtNode(i, move)))
  {
    hide NodeOk, InUse, NodesOk, FreeOk, TasksOk, Moved;
    NodeAt(s, i);
    MovedOk(s.nodes[i], move);
    NodesReplace(s.nodes, i, Moved(s.nodes[i], move));
    FreeReplace(s.nodes, s.freeHead, s.freeList, i, Moved(s.nodes[i], move));
    TasksReplace(s.nodes, s.tasks, i, Moved(s.nodes[i], move));
  }

  lemma EnqueueInv(s: State, i: nat)
    requires Inv(s) && Enabled(s, Enqueue(i))
    ensures Inv(Step(s, Enqueue(i))) && i !in s.tasks
  {
    hide NodeOk, InUse, NodesOk, FreeOk, TasksOk, Enqueued;
    NodeAt(s, i);
    EnqueuedOk(s.nodes[i]);
    NodesReplace(s.nodes, i, Enqueued(s.nodes[i]));
    FreeReplace(s.nodes, s.freeHead, s.freeList, i, Enqueued(s.nodes[i]));
    TasksPush(s.nodes, s.tasks, i, Enqueued(s.nodes[i]));
  }

  lemma HeadLinked(s: State)
    requires TasksOk(s.nodes, s.tasks) && s.tasks != []
    ensures s.tasks[0] < |s.nodes| && s.nodes[s.tasks[0]].runner.Linked?
  {}

  lemma PopInv(s: State)
    requires Inv(s) && Enabled(s, Pop)
    ensures Inv(Step(s, Pop))
  {
    hide NodeOk, InUse, NodesOk, FreeOk, TasksOk;
    var i := s.tasks[0];
    var n := s.nodes[i].(runner := Popped);
    NodeAt(s, i);
    HeadLinked(s);
    PoppedOk(s.nodes[i]);
    NodesReplace(s.nodes, i, n);
    FreeReplace(s.nodes, s.freeHead, s.freeList, i, n);
    TasksPop(s.nodes, s.tasks, n);
  }

  lemma FreeInv(s: State, i: nat)
    requires Inv(s) && Enabled(s, Free(i))
    ensures Inv(Step(s, Free(i)))
  {
    hide NodeOk, InUse, NodesOk, FreeOk, TasksOk, Freed;
    var n := Freed(s.nodes[i], s.freeHead);
    NodeAt(s, i);
    FreedOk(s.nodes[i], s.freeHead);
    InUseCounted(s, i);
    NodesReplace(s.nodes, i, n);
    FreeReturn(s.nodes, s.freeHead, s.freeList, i, n);
    TasksReplace(s.nodes, s.tasks, i, n);
  }

  /** Fewer nodes than all are free when one is in use, so the count of used nodes is positive. */
  lemma InUseCounted(s: State, i: nat)
    requires Inv(s) && i < |s.nodes| && InUse(s.nodes[i])
    ensures s.inUse > 0
  {
    hide NodeOk, InUse, NodesOk, TasksOk;
    DistinctBound(s.freeList, |s.nodes|, i);
  }

  /** A list of distinct numbers below `n` that misses one of them is shorter than `n`. */
  lemma {:induction false} DistinctBound(list: seq<nat>, n: nat, missing: nat)
    requires Distinct(list) && missing < n && missing !in list
    requires forall k :: 0 <= k < |list| ==> list[k] < n
    ensures |list| < n
    decreases n
  {
    if missing == n - 1 {
      DistinctAtMost(list, n - 1);
    } else if n - 1 in list {
      var k :| 0 <= k < |list| && list[k] == n - 1;
      DistinctBound(list[..k] + list[k + 1..], n - 1, missing);
    } else {
      DistinctAtMost(list, n - 1);
    }
  }

  lemma {:induction false} DistinctAtMost(list: seq<nat>, n: nat)
    requires Distinct(list) && forall k :: 0 <= k < |list| ==> list[k] < n
    ensures |list| <= n
    decreases n
  {
    assert |list| > 0 ==> n > 0 by {
      if |list| > 0 {
        assert list[0] < n;
      }
    }
    if n > 0 {
      if n - 1 in list {
        var k :| 0 <= k < |list| && list[k] == n - 1;
        DistinctAtMost(list[..k] + list[k + 1..], n - 1);
      } else {
        DistinctAtMost(list, n - 1);
      }
    }
  }

  lemma StepInv(s: State, a: Action)
    requires Inv(s)
    ensures Inv(Step(s, a))
  {
    hide Inv;
    if Enabled(s, a) {
      match a
      case TryStart => TryStartInv(s);
      case AtNode(i, move) => MoveInv(s, i, move);
      case Enqueue(i) => EnqueueInv(s, i);
      case Pop => PopInv(s);
      case Free(i) => FreeInv(s, i);
    }
  }

  function Unstarted(i: nat, capacity: nat): Node {
    Node(0, 0, false, 0, Empty, if i + 1 < capacity then Some(i + 1) else None, NoHandle,
         NoCompletion, NoInstall, NoRun, Idle, 0, 0, 0, 0, None)
  }

  /** A reserve as constructed: every node free, linked in order. */
  predicate Start(s: State) {
    && |s.nodes| > 0 && s.freeHead == Some(0) && s.inUse == 0 && s.tasks == []
    && s.freeList == seq(|s.nodes|, k => k)
    && (forall i :: 0 <= i < |s.nodes| ==> s.nodes[i] == Unstarted(i, |s.nodes|))
  }

  lemma UnstartedOk(i: nat, capacity: nat)
    ensures NodeOk(Unstarted(i, capacity)) && !InUse(Unstarted(i, capacity))
    ensures !Unstarted(i, capacity).runner.Linked?
    ensures Unstarted(i, capacity).nextFree == if i + 1 < capacity then Some(i + 1) else None
  {}

  lemma StartInv(s: State)
    requires Start(s)
    ensures Inv(s)
  {
    hide NodeOk, InUse, Unstarted;
    forall i | 0 <= i < |s.nodes|
      ensures NodeOk(s.nodes[i]) && !InUse(s.nodes[i]) && LinkOk(s.nodes, s.freeList, i) && i in s.freeList
      ensures !s.nodes[i].runner.Linked?
    {
      UnstartedOk(i, |s.nodes|);
      assert s.freeList[i] == i;
    }
  }

  lemma {:induction false} RunInv(s: State, schedule: seq<Action>)
    requires Start(s)
    ensures Inv(Run(s, schedule))
  {
    hide Inv, Step, Start;
    if schedule == [] {
      StartInv(s);
    } else {
      RunInv(s, schedule[..|schedule| - 1]);
      StepInv(Run(s, schedule[..|schedule| - 1]), schedule[|schedule| - 1]);
    }
  }

  /* --- What holds in every run ------------------------------------------------------------------------- */

  /** Free nodes and nodes in use make up the capacity, and a start is refused only when none is free. */
  lemma CapacityConserved(s: State, schedule: seq<Action>)
    requires Start(s)
    ensures var t := Run(s, schedule);
            && |t.freeList| + t.inUse == |t.nodes| == |s.nodes|
            && FreeOk(t.nodes, t.freeHead, t.freeList)
            && (t.freeHead.None? <==> t.inUse == |t.nodes|)
  {
    RunInv(s, schedule);
    RunCapacity(s, schedule);
  }

  lemma {:induction false} RunCapacity(s: State, schedule: seq<Action>)
    ensures |Run(s, schedule).nodes| == |s.nodes|
  {
    if schedule != [] {
      RunCapacity(s, schedule[..|schedule| - 1]);
    }
  }

  /** A node is recycled exactly once per start, and only once nothing refers to it; until then every
      reference carries the node's generation and the owner count is the number of references. */
  lemma RecycledOncePerStart(s: State, schedule: seq<Action>, i: nat)
    requires Start(s) && i < |Run(s, schedule).nodes|
    ensures var n := Run(s, schedule).nodes[i];
            && n.starts == n.recycles + (if InUse(n) then 1 else 0)
            && (!n.recycler.Idle? ==> Tokens(n) == 0)
            && n.owners == Tokens(n) && Current(n)
  {
    RunInv(s, schedule);
    NodeAt(Run(s, schedule), i);
  }

  /** The callback was handed over. */
  predicate Registered(n: Node) {
    !n.callback.Empty? && !n.callback.Installing?
  }

  /** While anyone refers to a node, its callback has been queued exactly when it is registered and the
      operation has completed, once; it has run at most once, with the operation's result. */
  lemma CallbackQueuedOnce(s: State, schedule: seq<Action>, i: nat)
    requires Start(s) && i < |Run(s, schedule).nodes| && Tokens(Run(s, schedule).nodes[i]) > 0
    ensures var n := Run(s, schedule).nodes[i];
            && n.queued == (if Registered(n) && n.completed then 1 else 0)
            && n.ran <= n.queued
            && (n.ran == 1 ==> n.seen == Some(n.result))
            && (n.runner.Popped? ==> n.callback.Queued?)
  {
    RunInv(s, schedule);
    NodeAt(Run(s, schedule), i);
  }

  /** A node whose last reference goes has run its callback if it had one due: none is lost. */
  lemma NoCallbackLost(s: State, schedule: seq<Action>, i: nat, move: Move)
    requires Start(s) && i < |Run(s, schedule).nodes| && Tokens(Run(s, schedule).nodes[i]) > 0
    requires Moved(Run(s, schedule).nodes[i], move).recycler.Resetting?
    ensures var n := Run(s, schedule).nodes[i];
            n.completed && (Registered(n) ==> n.ran == 1)
  {
    RunInv(s, schedule);
    NodeAt(Run(s, schedule), i);
    LastReference(Run(s, schedule).nodes[i], move);
  }

  lemma LastReference(n: Node, move: Move)
    requires NodeOk(n) && Tokens(n) > 0 && Moved(n, move).recycler.Resetting?
    ensures n.completed && (Registered(n) ==> n.ran == 1)
  {
    assert Tokens(n) == 1;
  }

  /** A callback task is never pushed while it is linked. */
  lemma TaskPushedUnlinked(s: State, schedule: seq<Action>, i: nat)
    requires Start(s) && Enabled(Run(s, schedule), Enqueue(i))
    ensures i !in Run(s, schedule).tasks
  {
    RunInv(s, schedule);
    EnqueueInv(Run(s, schedule), i);
  }

  /** TryStart hands out a node nobody refers to, whose task is not linked. */
  lemma StartTakesUnreferenced(s: State, schedule: seq<Action>)
    requires Start(s) && Run(s, schedule).freeHead.Some?
    ensures var t := Run(s, schedule); var i := t.freeHead.value;
            && i < |t.nodes| && Tokens(t.nodes[i]) == 0 && i !in t.tasks
            && Step(t, TryStart).nodes[i].generation == t.nodes[i].generation + 1
  {
    RunInv(s, schedule);
    var t := Run(s, schedule);
    HeadFree(t);
    NodeAt(t, t.freeHead.value);
  }

  /** A node with an operation still to complete is neither free nor on its way to be: nobody else is handed it,
      and it is not recycled. */
  lemma PendingNodeIsKept(s: State, schedule: seq<Action>, i: nat)
    requires Start(s) && i < |Run(s, schedule).nodes| && Run(s, schedule).nodes[i].completer.Unused?
    ensures var t := Run(s, schedule);
            && t.freeHead != Some(i) && i !in t.freeList && t.nodes[i].recycler.Idle? && !Enabled(t, Free(i))
            && !t.nodes[i].completed
  {
    RunInv(s, schedule);
    NodeAt(Run(s, schedule), i);
  }

  /** What a handle of generation `g` reads, once the operation has completed with `result`. */
  predicate Settled(n: Node, g: nat, result: nat) {
    n.generation >= g && (n.handle == Handle(g) ==> n.completed && n.result == result)
  }

  lemma SettledMove(n: Node, move: Move, g: nat, result: nat)
    requires NodeOk(n) && Settled(n, g, result)
    ensures Settled(Moved(n, move), g, result)
  {}

  lemma SettledStep(s: State, a: Action, i: nat, g: nat, result: nat)
    requires Inv(s) && i < |s.nodes| && Settled(s.nodes[i], g, result)
    ensures i < |Step(s, a).nodes| && Settled(Step(s, a).nodes[i], g, result)
  {
    hide FreeOk, TasksOk, Moved;
    NodeAt(s, i);
    if a.AtNode? {
      SettledMove(s.nodes[i], a.move, g, result);
    }
  }

  /** From the completion on, the result a live handle reads never changes, whatever is scheduled: a handle may be
      polled without the lock. */
  lemma ResultIsStable(s: State, schedule: seq<Action>, more: seq<Action>, i: nat, g: nat)
    requires Start(s) && i < |Run(s, schedule).nodes|
    requires Run(s, schedule).nodes[i].handle == Handle(g) && Run(s, schedule).nodes[i].completed
    ensures var t := Run(s, schedule); var u := Run(t, more);
            && i < |u.nodes|
            && (u.nodes[i].handle == Handle(g) ==> u.nodes[i].completed && u.nodes[i].result == t.nodes[i].result)
  {
    hide Start, FreeOk, TasksOk, Step, Run;
    RunInv(s, schedule);
    var t := Run(s, schedule);
    NodeAt(t, i);
    SettledRun(t, more, i, g, t.nodes[i].result);
  }

  lemma {:induction false} SettledRun(s: State, schedule: seq<Action>, i: nat, g: nat, result: nat)
    requires Inv(s) && i < |s.nodes| && Settled(s.nodes[i], g, result)
    ensures Inv(Run(s, schedule)) && i < |Run(s, schedule).nodes| && Settled(Run(s, schedule).nodes[i], g, result)
  {
    hide Inv, Step, Settled;
    if schedule != [] {
      var before := schedule[..|schedule| - 1];
      SettledRun(s, before, i, g, result);
      SettledStep(Run(s, before), schedule[|schedule| - 1], i, g, result);
      StepInv(Run(s, before), schedule[|schedule| - 1]);
    }
  }

  /* --- The intrusive callback queue --------------------------------------------------------------------- */

  class CallbackTask {
    const context: nat
    var next: CallbackTask?

    constructor (index: nat)
      ensures context == index && next == null
    {
      context, next := index, null;
    }
  }

  /** Tasks linked through their own `next` fields, first in, first out. */
  class CallbackTaskQueue {
    var head: CallbackTask?
    var tail: CallbackTask?
    ghost var tasks: seq<CallbackTask>

    ghost predicate Valid()
      reads this, tasks
    {
      && (forall j, k :: 0 <= j < k < |tasks| ==> tasks[j] != tasks[k])
      && (if tasks == [] then head == null && tail == null else head == tasks[0] && tail == tasks[|tasks| - 1])
      && (tasks != [] ==> tail.next == null)
      && (forall k :: 0 <= k < |tasks| - 1 ==> tasks[k].next == tasks[k + 1])
    }

    constructor ()
      ensures Valid() && tasks == []
    {
      head, tail, tasks := null, null, [];
    }

    /** Appends a task that is not linked. */
    method Push(task: CallbackTask)
      requires Valid() && task !in tasks
      modifies this, task, tasks
      ensures Valid() && tasks == old(tasks) + [task]
    {
      task.next := null;
      if tail == null {
        head := task;
      } else {
        tail.next := task;
      }
      tail := task;
      tasks := tasks + [task];
    }

    /** Unlinks and returns the oldest task. */
    method Pop() returns (task: CallbackTask?)
      requires Valid()
      modifies this, tasks
      ensures Valid()
      ensures old(tasks) == [] ==> task == null && tasks == []
      ensures old(tasks) != [] ==> task == old(tasks)[0] && tasks == old(tasks)[1..] && task.next == null
    {
      if head == null {
        return null;
      }
      task := head;
      head := task.next;
      if head == null {
        tail := null;
      }
      task.next := null;
      tasks := tasks[1..];
      assert forall k :: 0 <= k < |tasks| ==> tasks[k] == old(tasks)[k + 1] && tasks[k] != task;
    }
  }

  /** The dispatcher: the queue of the callbacks that wait for it. Node `i` has its own task in `tasks`. */
  class CallbackDispatcher {
    const queue: CallbackTaskQueue
    const tasks: seq<CallbackTask>
    ghost var pending: seq<nat>

    ghost predicate Valid()
      reads this, queue, queue.tasks
    {
      && queue.Valid() && |queue.tasks| == |pending|
      && (forall i, j :: 0 <= i < j < |tasks| ==> tasks[i] != tasks[j])
      && (forall i :: 0 <= i < |tasks| ==> tasks[i].context == i)
      && (forall k :: 0 <= k < |pending| ==> pending[k] < |tasks| && queue.tasks[k] == tasks[pending[k]])
    }

    constructor (capacity: nat)
      ensures Valid() && fresh(queue) && (forall i :: 0 <= i < |tasks| ==> fresh(tasks[i]))
      ensures |tasks| == capacity && pending == []
    {
      var made: seq<CallbackTask> := [];
      while |made| < capacity
        invariant |made| <= capacity && forall i :: 0 <= i < |made| ==> fresh(made[i]) && made[i].context == i
        invariant forall i, j :: 0 <= i < j < |made| ==> made[i] != made[j]
      {
        var task := new CallbackTask(|made|);
        made := made + [task];
      }
      var empty := new CallbackTaskQueue();
      queue, tasks, pending := empty, made, [];
    }

    /** Links a node's task, which must not be linked. */
    method Enqueue(i: nat)
      requires Valid() && i < |tasks| && i !in pending
      modifies this`pending, queue, queue.tasks, tasks[i]
      ensures Valid() && pending == old(pending) + [i]
      ensures forall task :: task in queue.tasks ==> task in old(queue.tasks) || task == tasks[i]
    {
      queue.Push(tasks[i]);
      pending := pending + [i];
    }

    /** Unlinks the callback that has waited longest. */
    method TakeNext() returns (next: Option<nat>)
      requires Valid()
      modifies this`pending, queue, queue.tasks
      ensures Valid()
      ensures old(pending) == [] ==> next.None? && pending == []
      ensures old(pending) != [] ==> next == Some(old(pending)[0]) && pending == old(pending)[1..]
    {
      var task := queue.Pop();
      if task == null {
        return None;
      }
      next := Some(task.context);
      pending := pending[1..];
    }
  }

  /* --- The reserve as its callers run it ------------------------------------------------------------------- */

  /** The fields a node really has. */
  datatype Cell = Cell(
    generation: nat, owners: nat, completed: bool, result: nat, callback: CallbackState, nextFree: Option<nat>)

  function CellOf(n: Node): Cell { Cell(n.generation, n.owners, n.completed, n.result, n.callback, n.nextFree) }

  ghost predicate Reachable(s: State) {
    exists origin: State, schedule: seq<Action> :: Start(origin) && Run(origin, schedule) == s
  }

  lemma ReachableInv(s: State)
    requires Reachable(s)
    ensures Inv(s)
  {
    var origin: State, schedule: seq<Action> :| Start(origin) && Run(origin, schedule) == s;
    RunInv(origin, schedule);
  }

  lemma ReachableStep(s: State, a: Action)
    requires Reachable(s)
    ensures Reachable(Step(s, a))
  {
    hide Step, Start;
    var origin: State, schedule: seq<Action> :| Start(origin) && Run(origin, schedule) == s;
    assert (schedule + [a])[..|schedule|] == schedule;
    assert Run(origin, schedule + [a]) == Step(s, a);
  }

  lemma ReachableNode(s: State, i: nat)
    requires Reachable(s) && i < |s.nodes|
    ensures NodeOk(s.nodes[i])
  {
    ReachableInv(s);
    NodeAt(s, i);
  }

  /** The move is the release of a reference issued for this generation. */
  predicate Releases(n: Node, move: Move, generation: nat) {
    match move
    case ReleaseHandle => n.handle == Handle(generation)
    case ReleaseCompletion => n.completer == CompleterLeaving(generation)
    case ReleaseInstall => n.installer == InstallerLeaving(generation)
    case ReleaseCallback => n.runner == RunnerLeaving(generation)
    case _ => false
  }

  /** A live reference always finds its own generation and a positive owner count. */
  lemma ReleaseEffect(s: State, i: nat, move: Move, generation: nat)
    requires Reachable(s) && i < |s.nodes| && Releases(s.nodes[i], move, generation)
    ensures s.nodes[i].generation == generation && s.nodes[i].owners > 0
    ensures var n := Step(s, AtNode(i, move)).nodes[i];
            && CellOf(n) == CellOf(s.nodes[i]).(owners := s.nodes[i].owners - 1)
            && (n.owners == 0 ==> n.recycler.Resetting?)
  {
    ReachableNode(s, i);
  }

  lemma RecycleEffect(s: State, i: nat)
    requires Reachable(s) && i < |s.nodes| && s.nodes[i].recycler.Resetting?
    ensures s.inUse > 0
    ensures var t := Step(s, AtNode(i, Reset)); var n := s.nodes[i];
            && CellOf(t.nodes[i]) == Cell(n.generation, 0, false, 0, Empty, n.nextFree)
            && t.nodes[i].recycler.Freeing? && t.inUse == s.inUse && Tokens(t.nodes[i]) == 0
  {
    ReachableInv(s);
    ReachableNode(s, i);
    InUseCounted(s, i);
  }

  lemma EnqueueEffect(s: State, i: nat)
    requires Reachable(s) && i < |s.nodes| && MustEnqueue(s.nodes[i])
    ensures i !in s.tasks && CellOf(Enqueued(s.nodes[i])) == CellOf(s.nodes[i])
  {
    ReachableInv(s);
    EnqueueInv(s, i);
  }

  /** An unused completion finds its own generation, not yet completed. */
  lemma CompleteEffect(s: State, i: nat, generation: nat)
    requires Reachable(s) && i < |s.nodes| && s.nodes[i].completer == Unused(generation)
    ensures s.nodes[i].generation == generation && !s.nodes[i].completed
  {
    ReachableNode(s, i);
  }

  lemma HandleEffect(s: State, i: nat, generation: nat)
    requires Reachable(s) && i < |s.nodes| && s.nodes[i].handle == Handle(generation)
    ensures s.nodes[i].generation == generation
  {
    ReachableNode(s, i);
  }

  lemma PopEffect(s: State)
    requires Reachable(s) && s.tasks != []
    ensures s.tasks[0] < |s.nodes|
    ensures var t := Step(s, Pop);
            && t.tasks == s.tasks[1..] && t.freeHead == s.freeHead && t.inUse == s.inUse && |t.nodes| == |s.nodes|
            && t.nodes[s.tasks[0]].runner.Popped?
            && forall i :: 0 <= i < |s.nodes| ==> CellOf(t.nodes[i]) == CellOf(s.nodes[i])
  {
    ReachableInv(s);
    HeadLinked(s);
  }

  lemma PoppedEffect(s: State, i: nat)
    requires Reachable(s) && i < |s.nodes| && s.nodes[i].runner.Popped?
    ensures s.nodes[i].callback.Queued? && s.nodes[i].completed
  {
    ReachableNode(s, i);
  }

  /** A reference is dropped; the last one resets the node and returns it to the free list. */
  function Dropped(s: State, i: nat, move: Move): State {
    var t := Step(s, AtNode(i, move));
    if i < |s.nodes| && s.nodes[i].owners == 1 then Step(Step(t, AtNode(i, Reset)), Free(i)) else t
  }

  /** The steps of a completion: an armed callback is queued and its task linked before the reference goes. */
  function CompletionSteps(s: State, i: nat, result: nat): State {
    var t := Step(s, AtNode(i, Complete(result)));
    Dropped(if i < |s.nodes| && s.nodes[i].callback.Armed? then Step(t, Enqueue(i)) else t, i, ReleaseCompletion)
  }

  /** The steps of a registration: once the operation has completed, the callback's task is linked at once. */
  function RegistrationSteps(s: State, i: nat, generation: nat): State {
    var t := Step(Step(s, AtNode(i, Install(generation))), AtNode(i, FinishInstall));
    Dropped(if i < |s.nodes| && s.nodes[i].completed then Step(t, Enqueue(i)) else t, i, ReleaseInstall)
  }

  class Reserve {
    const nodes: array<Cell>
    var freeHead: Option<nat>
    var inUse: nat
    const dispatcher: CallbackDispatcher
    ghost var tasks: seq<nat>
    ghost var model: State

    ghost predicate Valid()
      reads this, nodes
    {
      && Reachable(model) && |model.nodes| == nodes.Length
      && model.freeHead == freeHead && model.inUse == inUse && model.tasks == tasks
      && forall i :: 0 <= i < nodes.Length ==> nodes[i] == CellOf(model.nodes[i])
    }

    /** The dispatcher's queue holds the linked tasks, in order. */
    ghost predicate Dispatching()
      reads this, dispatcher, dispatcher.queue, dispatcher.queue.tasks
    {
      dispatcher.Valid() && dispatcher.pending == tasks && |dispatcher.tasks| == nodes.Length
    }

    ghost method Track(a: Action)
      requires Reachable(model)
      modifies this`model
      ensures model == Step(old(model), a) && Reachable(model)
    {
      hide Step, Reachable;
      ReachableStep(model, a);
      model := Step(model, a);
    }

    constructor (capacity: nat)
      requires capacity > 0
      ensures Valid() && Dispatching() && fresh(nodes) && nodes.Length == capacity && Start(model)
    {
      var table := new Cell[capacity](_ => Cell(0, 0, false, 0, Empty, None));
      var index := 0;
      while index < capacity
        invariant index <= capacity
        invariant forall i :: 0 <= i < capacity ==>
                    table[i] == Cell(0, 0, false, 0, Empty,
                                     if i < index && i + 1 < capacity then Some(i + 1) else None)
      {
        table[index] := table[index].(nextFree := if index + 1 < capacity then Some(index + 1) else None);
        index := index + 1;
      }
      var threads := new CallbackDispatcher(capacity);
      nodes, freeHead, inUse, tasks, dispatcher := table, Some(0), 0, [], threads;
      model := State(
        seq(capacity, i requires 0 <= i < capacity => Unstarted(i, capacity)),
        Some(0), 0, [], seq(capacity, k => k));
      new;
      assert Run(model, []) == model;
    }

    /** Takes the head of the free list, or refuses exactly when every node is in use. */
    method TryStart() returns (started: Option<(nat, nat)>)
      requires Valid()
      modifies this, nodes
      ensures Valid()
      ensures started.None? <==> old(inUse) == nodes.Length
      ensures started.None? ==> model == old(model)
      ensures started.Some? ==>
                var i := started.value.0;
                && i < nodes.Length && Tokens(old(model).nodes[i]) == 0 && model == Step(old(model), Action.TryStart)
                && model.nodes[i].handle == Handle(started.value.1)
                && model.nodes[i].completer == Unused(started.value.1)
    {
      ReachableInv(model);
      if freeHead.None? {
        return None;
      }
      var i := freeHead.value;
      HeadFree(model);
      var generation := nodes[i].generation + 1;
      Track(Action.TryStart);
      freeHead := nodes[i].nextFree;
      inUse := inUse + 1;
      nodes[i] := Cell(generation, 2, false, 0, Empty, None);
      return Some((i, generation));
    }

    /** Drops a reference: the one that was the last resets the node and returns it to the free list. */
    method ReleaseOwner(i: nat, generation: nat, ghost move: Move)
      requires Valid() && i < nodes.Length && Releases(model.nodes[i], move, generation)
      modifies this, nodes
      ensures Valid() && tasks == old(tasks) && model == Dropped(old(model), i, move)
      ensures old(nodes[i]).owners > 1 ==> nodes[i].owners == old(nodes[i]).owners - 1
      ensures old(nodes[i]).owners == 1 ==>
                freeHead == Some(i) && inUse == old(inUse) - 1 && !InUse(model.nodes[i])
    {
      ReleaseEffect(model, i, move, generation);
      if nodes[i].generation != generation || nodes[i].owners == 0 {
        assert false;
      }
      Track(AtNode(i, move));
      nodes[i] := nodes[i].(owners := nodes[i].owners - 1);
      if nodes[i].owners != 0 {
        return;
      }
      RecycleEffect(model, i);
      Track(AtNode(i, Reset));
      nodes[i] := Cell(nodes[i].generation, 0, false, 0, Empty, nodes[i].nextFree);
      Track(Free(i));
      nodes[i] := nodes[i].(nextFree := freeHead);
      freeHead := Some(i);
      inUse := inUse - 1;
    }

    /** Links a queued callback's task. */
    method EnqueueTask(i: nat)
      requires Valid() && Dispatching() && i < nodes.Length && MustEnqueue(model.nodes[i])
      modifies this`tasks, this`model, dispatcher`pending, dispatcher.queue, dispatcher.queue.tasks, dispatcher.tasks
      ensures Valid() && Dispatching() && model == Step(old(model), Enqueue(i)) && tasks == old(tasks) + [i] &&
              i !in old(tasks)
      ensures i < |model.nodes| && i < |old(model).nodes| && model.nodes[i] == Enqueued(old(model).nodes[i])
    {
      EnqueueEffect(model, i);
      hide Reachable;
      dispatcher.Enqueue(i);
      Track(Enqueue(i));
      tasks := tasks + [i];
    }

    /** The locked block of TryComplete. */
    method CompleteLocked(i: nat, generation: nat, result: nat) returns (completed: bool, enqueue: bool)
      requires Valid() && i < nodes.Length && model.nodes[i].completer == Unused(generation)
      modifies this`model, nodes
      ensures Valid() && model == Step(old(model), AtNode(i, Complete(result)))
      ensures i < |old(model).nodes| && completed &&
              enqueue == old(nodes[i]).callback.Armed? == old(model).nodes[i].callback.Armed?
      ensures i < |model.nodes| && model.nodes[i].completer ==
              if enqueue then CompleterEnqueueing(generation) else CompleterLeaving(generation)
    {
      CompleteEffect(model, i, generation);
      hide Reachable;
      Track(AtNode(i, Complete(result)));
      completed, enqueue := false, false;
      if nodes[i].generation == generation && !nodes[i].completed {
        nodes[i] := nodes[i].(result := result, completed := true);
        if nodes[i].callback.Armed? {
          nodes[i] := nodes[i].(callback := Queued, owners := nodes[i].owners + 1);
          enqueue := true;
        }
        completed := true;
      }
    }

    /** Completes the operation: a live completion always succeeds, queues an armed callback and gives
        up its reference. */
    method TryComplete(i: nat, generation: nat, result: nat) returns (completed: bool)
      requires Valid() && Dispatching() && i < nodes.Length && model.nodes[i].completer == Unused(generation)
      modifies this, nodes, dispatcher`pending, dispatcher.queue, dispatcher.queue.tasks, dispatcher.tasks
      ensures Valid() && Dispatching() && completed && model == CompletionSteps(old(model), i, result)
      ensures tasks == if old(nodes[i]).callback.Armed? then old(tasks) + [i] else old(tasks)
    {
      hide Valid, Step;
      var enqueue;
      completed, enqueue := CompleteLocked(i, generation, result);
      if enqueue {
        EnqueueTask(i);
      }
      ReleaseOwner(i, generation, ReleaseCompletion);
    }

    /** The first locked block of RegisterCallback: the sole registration pins the node. */
    method InstallLocked(i: nat, generation: nat) returns (pinned: bool)
      requires Valid() && i < nodes.Length && model.nodes[i].handle == Handle(generation)
      modifies this`model, nodes
      ensures Valid() && model == Step(old(model), AtNode(i, Install(generation)))
      ensures pinned == old(nodes[i]).callback.Empty? && i < |old(model).nodes|
      ensures pinned ==> i < |model.nodes| && model.nodes[i].installer == Moving(generation)
      ensures !pinned ==> model == old(model)
      ensures nodes[i].completed == old(nodes[i]).completed == old(model).nodes[i].completed && tasks == old(tasks)
    {
      HandleEffect(model, i, generation);
      hide Reachable;
      Track(AtNode(i, Install(generation)));
      if nodes[i].generation != generation || !nodes[i].callback.Empty? {
        return false;
      }
      nodes[i] := nodes[i].(callback := Installing, owners := nodes[i].owners + 1);
      return true;
    }

    /** The second locked block: the callback is armed, or queued at once if the operation is over. */
    method ArmLocked(i: nat, generation: nat) returns (enqueue: bool)
      requires Valid() && i < nodes.Length && model.nodes[i].installer == Moving(generation)
      modifies this`model, nodes
      ensures Valid() && model == Step(old(model), AtNode(i, FinishInstall))
      ensures enqueue == old(nodes[i]).completed == old(model).nodes[i].completed && tasks == old(tasks)
      ensures i < |model.nodes| && model.nodes[i].installer ==
              if enqueue then InstallerEnqueueing(generation) else InstallerLeaving(generation)
    {
      hide Reachable;
      Track(AtNode(i, FinishInstall));
      nodes[i] := nodes[i].(callback := Armed);
      enqueue := nodes[i].completed;
      if enqueue {
        nodes[i] := nodes[i].(callback := Queued, owners := nodes[i].owners + 1);
      }
    }

    /** Registers the sole callback; one registered after the operation completed is queued at once. */
    method RegisterCallback(i: nat, generation: nat) returns (registered: bool)
      requires Valid() && Dispatching() && i < nodes.Length && model.nodes[i].handle == Handle(generation)
      modifies this, nodes, dispatcher`pending, dispatcher.queue, dispatcher.queue.tasks, dispatcher.tasks
      ensures Valid() && Dispatching() && registered == old(nodes[i]).callback.Empty?
      ensures model == if registered then RegistrationSteps(old(model), i, generation) else old(model)
      ensures tasks == if registered && old(nodes[i]).completed then old(tasks) + [i] else old(tasks)
    {
      hide Valid, Step;
      registered := InstallLocked(i, generation);
      if !registered {
        return;
      }
      var enqueue := ArmLocked(i, generation);
      if enqueue {
        EnqueueTask(i);
      }
      ReleaseOwner(i, generation, ReleaseInstall);
    }

    /** Runs a popped callback: it always finds itself queued, and sees the operation's result. */
    method RunCallback(i: nat) returns (seen: nat)
      requires Valid() && i < nodes.Length && model.nodes[i].runner.Popped?
      modifies this, nodes
      ensures Valid() && tasks == old(tasks) && seen == old(nodes[i]).result
      ensures model == Dropped(Step(Step(old(model), AtNode(i, Move.RunCallback)), AtNode(i, FinishCallback)),
                               i, ReleaseCallback)
    {
      PoppedEffect(model, i);
      hide Reachable;
      var generation := nodes[i].generation;
      seen := nodes[i].result;
      Track(AtNode(i, Move.RunCallback));
      nodes[i] := nodes[i].(callback := Running);
      Track(AtNode(i, FinishCallback));
      nodes[i] := nodes[i].(callback := Done);
      ReleaseOwner(i, generation, ReleaseCallback);
    }

    /** One turn of the dispatcher's thread: the callback that has waited longest runs. */
    method RunNext() returns (seen: Option<nat>)
      requires Valid() && Dispatching()
      modifies this, nodes, dispatcher`pending, dispatcher.queue, dispatcher.queue.tasks
      ensures Valid() && Dispatching()
      ensures old(tasks) == [] ==> seen.None? && model == old(model) && tasks == []
      ensures old(tasks) != [] ==>
                var i := old(tasks)[0];
                && i < nodes.Length && seen == Some(old(nodes[..])[i].result) && tasks == old(tasks)[1..]
                && model == Dropped(Step(Step(Step(old(model), Pop), AtNode(i, Move.RunCallback)),
                                         AtNode(i, FinishCallback)), i, ReleaseCallback)
    {
      hide Step, Dropped;
      if tasks != [] {
        PopEffect(model);
      }
      var next := dispatcher.TakeNext();
      if next.None? {
        return None;
      }
      Track(Pop);
      tasks := tasks[1..];
      var result := RunCallback(next.value);
      return Some(result);
    }
  }
}
