/** The life cycle of partition consumers: assignment, dispatch, loss and shutdown.

    The goroutines are the poller, the rebalance callbacks (which the client runs one at a
    time), the shutdown sequence and one worker per assigned partition.  Each action below
    is one indivisible move of one of them; they interleave freely, except for what the
    client promises: a callback runs neither between a poll and AllowRebalance nor during
    another callback, partitions are assigned only while not held, and lost only while
    held. */
module Lifecycle {
  datatype TopicPartition = TopicPartition(topic: string, partition: int)

  /** A worker is at its select, works on a batch, or has returned and so closed `done`. */
  datatype Worker = Selecting | Processing(batch: nat) | Exited

  /** PartitionConsumer.  `requests` counts calls of closeQuitChannel, `closes` counts how
      often the channel was really closed; `once` is the sync.Once. */
  datatype Consumer = Consumer(tp: TopicPartition, requests: nat, once: bool, closes: nat, worker: Worker)

  datatype Poller = Polling | Dispatching(todo: seq<(TopicPartition, nat)>) | Stopped

  /** The `lost` callback: partitions still to take away, consumers it waits for. */
  datatype Callback = Idle | Losing(todo: set<TopicPartition>, waiting: set<nat>)

  /** gracefulShutdown: consumers still to tell to quit, consumers it waits for. */
  datatype Shutdown = NotStarted | Closing(pending: set<nat>, waiting: set<nat>) | Closed

  /** Consumers are numbered in order of creation and never forgotten; `held` is the
      consumers map. */
  datatype Group = Group(
    canceled: bool,
    held: map<TopicPartition, nat>,
    all: seq<Consumer>,
    poller: Poller,
    callback: Callback,
    shutdown: Shutdown)

  datatype Action =
    | Cancel
    | Assign(tp: TopicPartition)
    | LoseBegin(tps: set<TopicPartition>)
    | LoseOne(tp: TopicPartition)
    | LoseReturn
    | PollReturn(fetches: seq<(TopicPartition, nat)>)
    | DispatchSkip
    | DispatchSend
    | DispatchCancel
    | DispatchDone
    | PollStop
    | WorkerQuit(id: nat)
    | WorkerCancel(id: nat)
    | WorkerFinish(id: nat)
    | ShutdownBegin
    | ShutdownClose(id: nat)
    | ShutdownEnd

  const EMPTY := Group(false, map[], [], Polling, Idle, NotStarted)

  /** closeQuitChannel */
  function CloseQuit(c: Consumer): Consumer {
    if c.once then
      c.(requests := c.requests + 1)
    else
      c.(requests := c.requests + 1, once := true, closes := c.closes + 1)
  }

  function WithWorker(g: Group, id: nat, w: Worker): Group
    requires id < |g.all|
  {
    g.(all := g.all[id := g.all[id].(worker := w)])
  }

  ghost predicate HasExited(g: Group, id: nat) {
    id < |g.all| && g.all[id].worker == Exited
  }

  predicate RebalanceAllowed(g: Group) {
    !g.poller.Dispatching? && g.callback == Idle && g.shutdown != Closed
  }

  ghost predicate Step(g: Group, a: Action, g': Group) {
    match a
    case Cancel =>
      g' == g.(canceled := true)
    case Assign(tp) =>
      && RebalanceAllowed(g) && tp !in g.held
      && g' == g.(held := g.held[tp := |g.all|], all := g.all + [Consumer(tp, 0, false, 0, Selecting)])
    case LoseBegin(tps) =>
      && RebalanceAllowed(g) && tps <= g.held.Keys
      && g' == g.(callback := Losing(tps, {}))
    case LoseOne(tp) =>
      && g.callback.Losing? && tp in g.callback.todo && tp in g.held && g.held[tp] < |g.all|
      && var id := g.held[tp];
      g' == g.(held := g.held - {tp},
      all := g.all[id := CloseQuit(g.all[id])],
      callback := Losing(g.callback.todo - {tp}, g.callback.waiting + {id}))
    case LoseReturn =>
      && g.callback.Losing? && g.callback.todo == {}
      && (forall id :: id in g.callback.waiting ==> HasExited(g, id))
      && g' == g.(callback := Idle)
    case PollReturn(fetches) =>
      && g.poller == Polling && g.callback == Idle && !g.canceled
      && g' == g.(poller := Dispatching(fetches))
    case DispatchSkip =>
      && g.poller.Dispatching? && g.poller.todo != [] && g.poller.todo[0].0 !in g.held
      && g' == g.(poller := Dispatching(g.poller.todo[1..]))
    case DispatchSend =>
      && g.poller.Dispatching? && g.poller.todo != [] && g.poller.todo[0].0 in g.held
      && var id := g.held[g.poller.todo[0].0];
      && id < |g.all| && g.all[id].worker == Selecting
      && g' == WithWorker(g, id, Processing(g.poller.todo[0].1)).(poller := Dispatching(g.poller.todo[1..]))
    case DispatchCancel =>
      && g.poller.Dispatching? && g.poller.todo != [] && g.poller.todo[0].0 in g.held && g.canceled
      && g' == g.(poller := Dispatching(g.poller.todo[1..]))
    case DispatchDone =>
      && g.poller == Dispatching([])
      && g' == g.(poller := Polling)
    case PollStop =>
      && g.poller == Polling && g.canceled
      && g' == g.(poller := Stopped)
    case WorkerQuit(id) =>
      && id < |g.all| && g.all[id].worker == Selecting && g.all[id].once
      && g' == WithWorker(g, id, Exited)
    case WorkerCancel(id) =>
      && id < |g.all| && g.all[id].worker == Selecting && g.canceled
      && g' == WithWorker(g, id, Exited)
    case WorkerFinish(id) =>
      && id < |g.all| && g.all[id].worker.Processing?
      && g' == WithWorker(g, id, Selecting)
    case ShutdownBegin =>
      && g.canceled && g.shutdown == NotStarted
      && g' == g.(shutdown := Closing(g.held.Values, {}))
    case ShutdownClose(id) =>
      && g.shutdown.Closing? && id in g.shutdown.pending && id < |g.all|
      && g' == g.(all := g.all[id := CloseQuit(g.all[id])],
      shutdown := Closing(g.shutdown.pending - {id}, g.shutdown.waiting + {id}))
    case ShutdownEnd =>
      && g.shutdown.Closing? && g.shutdown.pending == {}
      && (forall id :: id in g.shutdown.waiting ==> HasExited(g, id))
      && g' == g.(shutdown := Closed)
  }

  ghost predicate Next(g: Group, g': Group) {
    exists a :: Step(g, a, g')
  }

  ghost predicate NextAt(groups: seq<Group>, i: int)
    requires 0 < i < |groups|
  {
    Next(groups[i - 1], groups[i])
  }

  ghost predicate Run(groups: seq<Group>) {
    && groups != [] && groups[0] == EMPTY
    && forall i :: 0 < i < |groups| ==> NextAt(groups, i)
  }

  /** The consumers the `lost` callback waits for. */
  function Awaited(g: Group): set<nat> {
    if g.callback.Losing? then g.callback.waiting else {}
  }

  ghost predicate HeldOk(g: Group) {
    forall tp :: tp in g.held ==> g.held[tp] < |g.all| && g.all[g.held[tp]].tp == tp
  }

  /** A consumer still in the map has been told to quit, or has exited, only once the
      context is done. */
  ghost predicate RunningOk(g: Group)
    requires HeldOk(g)
  {
    forall tp :: tp in g.held && (g.all[g.held[tp]].once || g.all[g.held[tp]].worker == Exited) ==> g.canceled
  }

  ghost predicate QuitOk(g: Group) {
    forall id :: 0 <= id < |g.all| ==> g.all[id].closes == (if g.all[id].once then 1 else 0)
  }

  ghost predicate Holds(g: Group, id: nat) {
    id < |g.all| && g.all[id].tp in g.held && g.held[g.all[id].tp] == id
  }

  /** A worker still running is held, or its loss is being waited for. */
  ghost predicate WorkersOk(g: Group) {
    forall id :: 0 <= id < |g.all| && g.all[id].worker != Exited ==> Holds(g, id) || id in Awaited(g)
  }

  ghost predicate CallbackOk(g: Group) {
    && (g.callback.Losing? ==> !g.poller.Dispatching? && g.callback.todo <= g.held.Keys)
    && (forall id :: id in Awaited(g) ==> id < |g.all| && g.all[id].once && g.all[id].tp !in g.held)
    && (forall id, id' :: id in Awaited(g) && id' in Awaited(g) && g.all[id].tp == g.all[id'].tp ==> id == id')
  }

  ghost predicate ShutdownOk(g: Group) {
    && (g.shutdown != NotStarted ==> g.canceled)
    && (g.shutdown.Closing? ==> forall id :: id in g.shutdown.pending ==> id < |g.all|)
    && (g.shutdown.Closing? ==> forall id :: id in g.shutdown.waiting ==> id < |g.all| && g.all[id].once)
  }

  ghost predicate Inv(g: Group) {
    HeldOk(g) && RunningOk(g) && QuitOk(g) && CallbackOk(g) && WorkersOk(g) && ShutdownOk(g)
  }

  /** A step changes at most one consumer, never its partition, and only its quit once-flag
      can rise and its worker can move. */
  ghost predicate SameConsumers(g: Group, g': Group) {
    && |g.all| <= |g'.all|
    && forall id :: 0 <= id < |g.all| ==> g'.all[id].tp == g.all[id].tp && (g.all[id].once ==> g'.all[id].once)
  }

  lemma StepKeepsConsumers(g: Group, a: Action, g': Group)
    requires Step(g, a, g')
    ensures SameConsumers(g, g')
  {
  }

  lemma StepKeepsHeld(g: Group, a: Action, g': Group)
    requires HeldOk(g) && Step(g, a, g')
    ensures HeldOk(g')
  {
    StepKeepsConsumers(g, a, g');
  }

  lemma StepKeepsRunning(g: Group, a: Action, g': Group)
    requires HeldOk(g) && RunningOk(g) && ShutdownOk(g) && Step(g, a, g') && HeldOk(g')
    ensures RunningOk(g')
  {
    forall tp | tp in g'.held && !g'.canceled
      ensures !g'.all[g'.held[tp]].once && g'.all[g'.held[tp]].worker != Exited
    {
      if tp in g.held {
        assert g'.held[tp] == g.held[tp];
      }
    }
  }

  lemma StepKeepsQuit(g: Group, a: Action, g': Group)
    requires QuitOk(g) && Step(g, a, g')
    ensures QuitOk(g')
  {
  }

  lemma StepKeepsCallback(g: Group, a: Action, g': Group)
    requires HeldOk(g) && CallbackOk(g) && Step(g, a, g')
    ensures CallbackOk(g')
  {
    StepKeepsConsumers(g, a, g');
    if a.LoseOne? {
      assert g'.all[g.held[a.tp]].once;
    } else if a.Assign? {
      assert Awaited(g') == {};
    } else if g'.callback.Losing? {
      assert Awaited(g') <= Awaited(g);
    }
  }

  lemma StepKeepsWorkers(g: Group, a: Action, g': Group)
    requires HeldOk(g) && WorkersOk(g) && Step(g, a, g')
    ensures WorkersOk(g')
  {
  }

  lemma StepKeepsShutdown(g: Group, a: Action, g': Group)
    requires HeldOk(g) && ShutdownOk(g) && Step(g, a, g')
    ensures ShutdownOk(g')
  {
    StepKeepsConsumers(g, a, g');
    if a.ShutdownBegin? {
      forall id | id in g.held.Values
        ensures id < |g.all|
      {
        var tp :| tp in g.held && g.held[tp] == id;
      }
    } else if a.ShutdownClose? {
      assert g'.all[a.id].once;
    }
  }

  lemma StepKeepsInv(g: Group, a: Action, g': Group)
    requires Inv(g) && Step(g, a, g')
    ensures Inv(g')
  {
    StepKeepsHeld(g, a, g');
    StepKeepsRunning(g, a, g');
    StepKeepsQuit(g, a, g');
    StepKeepsCallback(g, a, g');
    StepKeepsWorkers(g, a, g');
    StepKeepsShutdown(g, a, g');
  }

  lemma {:induction false} RunKeepsInv(groups: seq<Group>, i: nat)
    requires Run(groups) && i < |groups|
    ensures Inv(groups[i])
  {
    if i > 0 {
      RunKeepsInv(groups, i - 1);
      assert NextAt(groups, i);
      var a :| Step(groups[i - 1], a, groups[i]);
      StepKeepsInv(groups[i - 1], a, groups[i]);
    }
  }

  /** The state is one the group can get into. */
  ghost predicate Reachable(g: Group) {
    exists groups :: Run(groups) && groups[|groups| - 1] == g
  }

  lemma ReachableHasInv(g: Group)
    requires Reachable(g)
    ensures Inv(g)
  {
    var groups :| Run(groups) && groups[|groups| - 1] == g;
    RunKeepsInv(groups, |groups| - 1);
  }

  /** At most one worker is running per partition. */
  lemma OneWorkerPerPartition(g: Group, id: nat, id': nat)
    requires Reachable(g) && id < |g.all| && id' < |g.all| && g.all[id].tp == g.all[id'].tp
    requires g.all[id].worker != Exited && g.all[id'].worker != Exited
    ensures id == id'
  {
    ReachableHasInv(g);
    assert Holds(g, id) || id in Awaited(g);
    assert Holds(g, id') || id' in Awaited(g);
  }

  /** Once `lost` has returned for a partition, and until it is assigned again, no worker of
      that partition is running. */
  lemma NoWorkerAfterLoss(g: Group, id: nat)
    requires Reachable(g) && id < |g.all| && g.callback == Idle && g.all[id].tp !in g.held
    ensures g.all[id].worker == Exited
  {
    ReachableHasInv(g);
    assert g.all[id].worker != Exited ==> Holds(g, id) || id in Awaited(g);
  }

  /** How much a worker still has to do before it is gone. */
  function Rank(w: Worker): nat {
    match w
    case Processing(_) => 2
    case Selecting => 1
    case Exited => 0
  }

  /** A consumer taken out of the map is given no further batch and never comes back. */
  lemma NoBatchAfterLoss(g: Group, a: Action, g': Group, id: nat)
    requires Inv(g) && Step(g, a, g') && id < |g.all| && !Holds(g, id)
    ensures id < |g'.all| && !Holds(g', id)
    ensures if a == WorkerFinish(id) then g'.all[id].worker == Selecting else Rank(g'.all[id].worker) <= Rank(g.all[id].worker)
    ensures g.all[id].worker == Exited ==> g'.all[id].worker == Exited
  {
    StepKeepsConsumers(g, a, g');
  }

  /** The quit channel of a consumer is closed at most once, however often it is asked for. */
  lemma QuitClosedAtMostOnce(g: Group, id: nat)
    requires Reachable(g) && id < |g.all|
    ensures g.all[id].closes <= 1
  {
    ReachableHasInv(g);
  }

  /** What the poller still has to do for its current fetch. */
  function DispatchWork(g: Group): nat {
    if !g.poller.Dispatching? then
      0
    else
      var busy := if g.poller.todo != [] && g.poller.todo[0].0 in g.held && g.held[g.poller.todo[0].0] < |g.all|
                     && g.all[g.held[g.poller.todo[0].0]].worker.Processing? then 1 else 0;
      1 + 2 * |g.poller.todo| + busy
  }

  /** A dispatch is never stuck: some action is possible that brings it nearer to its end. */
  lemma DispatchNeverStuck(g: Group)
    requires Reachable(g) && g.poller.Dispatching?
    ensures exists a, g' :: Step(g, a, g') && DispatchWork(g') < DispatchWork(g)
  {
    ReachableHasInv(g);
    var todo := g.poller.todo;
    if todo == [] {
      assert Step(g, DispatchDone, g.(poller := Polling));
    } else {
      var rest := g.(poller := Dispatching(todo[1..]));
      if todo[0].0 !in g.held {
        assert Step(g, DispatchSkip, rest);
      } else if g.canceled {
        assert Step(g, DispatchCancel, rest);
      } else {
        var id := g.held[todo[0].0];
        if g.all[id].worker == Selecting {
          assert Step(g, DispatchSend, WithWorker(g, id, Processing(todo[0].1)).(poller := Dispatching(todo[1..])));
        } else {
          assert Step(g, WorkerFinish(id), WithWorker(g, id, Selecting));
        }
      }
    }
  }

  /** Nothing anybody does sets a dispatch back. */
  lemma DispatchWorkNeverRises(g: Group, a: Action, g': Group)
    requires Inv(g) && Step(g, a, g') && g.poller.Dispatching?
    ensures DispatchWork(g') <= DispatchWork(g)
  {
  }

  /** The worker that consumes tp takes the batch from g to g'. */
  ghost predicate HandsOver(g: Group, g': Group, tp: TopicPartition, batch: nat) {
    && tp in g.held && g.held[tp] < |g.all| && g.held[tp] < |g'.all| && g.all[g.held[tp]].tp == tp
    && g.all[g.held[tp]].worker == Selecting && g'.all[g.held[tp]].worker == Processing(batch)
  }

  /** The dispatch of a fetch goes on: the consumers stay as they are, and either nothing is
      dispatched or the next batch is handed to its partition's worker, unless the partition is
      not held or the context is done. */
  ghost predicate Advances(g: Group, g': Group) {
    && g.poller.Dispatching? && g'.poller.Dispatching? && g'.held == g.held && (g.canceled ==> g'.canceled)
    && (g'.poller == g.poller ||
        (g.poller.todo != [] && g'.poller.todo == g.poller.todo[1..] &&
         (g.poller.todo[0].0 in g.held && !g.canceled ==> HandsOver(g, g', g.poller.todo[0].0, g.poller.todo[0].1))))
  }

  lemma DispatchStep(g: Group, a: Action, g': Group)
    requires Inv(g) && Step(g, a, g') && g.poller.Dispatching? && g'.poller.Dispatching?
    ensures Advances(g, g')
  {
  }

  lemma RunAdvances(groups: seq<Group>, i: nat)
    requires Run(groups) && i + 1 < |groups| && groups[i].poller.Dispatching? && groups[i + 1].poller.Dispatching?
    ensures Advances(groups[i], groups[i + 1])
  {
    RunKeepsInv(groups, i);
    var n := i + 1;
    assert NextAt(groups, n);
    var a :| Step(groups[i], a, groups[n]);
    DispatchStep(groups[i], a, groups[n]);
  }

  lemma {:induction false} AdvanceHandsOver(groups: seq<Group>, k: nat) returns (l: nat)
    requires groups != [] && forall h :: 0 < h < |groups| ==> Advances(groups[h - 1], groups[h])
    requires groups[0].poller.Dispatching? && groups[|groups| - 1].poller == Dispatching([]) && !groups[|groups| - 1].canceled
    requires k < |groups[0].poller.todo| && groups[0].poller.todo[k].0 in groups[0].held
    ensures l + 1 < |groups| && HandsOver(groups[l], groups[l + 1], groups[0].poller.todo[k].0, groups[0].poller.todo[k].1)
    decreases |groups|
  {
    var rest := groups[1..];
    assert Advances(groups[0], groups[1]);
    NotCanceled(groups);
    if groups[1].poller == groups[0].poller {
      var m := AdvanceHandsOver(rest, k);
      l := m + 1;
    } else if k > 0 {
      var m := AdvanceHandsOver(rest, k - 1);
      l := m + 1;
    } else {
      l := 0;
    }
  }

  lemma {:induction false} NotCanceled(groups: seq<Group>)
    requires groups != [] && forall h :: 0 < h < |groups| ==> Advances(groups[h - 1], groups[h])
    requires !groups[|groups| - 1].canceled
    ensures !groups[0].canceled
  {
    if |groups| > 1 {
      assert Advances(groups[0], groups[1]);
      NotCanceled(groups[1..]);
    }
  }

  /** Every batch of a fetch whose partition is held when the fetch comes in reaches the worker of
      that partition by the time the fetch is dispatched, unless the context is done by then. */
  lemma BatchReachesItsWorker(groups: seq<Group>, i: nat, j: nat, k: nat) returns (l: nat)
    requires Run(groups) && i <= j < |groups| && forall h :: i <= h <= j ==> groups[h].poller.Dispatching?
    requires groups[j].poller.todo == [] && !groups[j].canceled
    requires k < |groups[i].poller.todo| && groups[i].poller.todo[k].0 in groups[i].held
    ensures i <= l < j && HandsOver(groups[l], groups[l + 1], groups[i].poller.todo[k].0, groups[i].poller.todo[k].1)
  {
    var dispatch := groups[i..j + 1];
    forall h | 0 < h < |dispatch|
      ensures Advances(dispatch[h - 1], dispatch[h])
    {
      RunAdvances(groups, i + h - 1);
    }
    var m := AdvanceHandsOver(dispatch, k);
    l := i + m;
  }

  /** What the first n workers still have to do, of those that are waited for. */
  function Remaining(all: seq<Consumer>, waiting: set<nat>, n: nat): nat
    requires n <= |all|
  {
    if n == 0 then
      0
    else
      Remaining(all, waiting, n - 1) + if n - 1 in waiting then Rank(all[n - 1].worker) else 0
  }

  /** What `lost` still has to wait for. */
  function LossWork(g: Group): nat {
    if g.callback == Idle then 0 else 1 + 3 * |g.callback.todo| + Remaining(g.all, g.callback.waiting, |g.all|)
  }

  lemma {:induction false} RemainingMonotone(all: seq<Consumer>, all': seq<Consumer>, waiting: set<nat>, n: nat)
    requires n <= |all| && n <= |all'|
    requires forall id :: 0 <= id < n && id in waiting ==> Rank(all'[id].worker) <= Rank(all[id].worker)
    ensures Remaining(all', waiting, n) <= Remaining(all, waiting, n)
    ensures (exists id :: 0 <= id < n && id in waiting && Rank(all'[id].worker) < Rank(all[id].worker)) ==>
      Remaining(all', waiting, n) < Remaining(all, waiting, n)
  {
    if n > 0 {
      RemainingMonotone(all, all', waiting, n - 1);
    }
  }

  lemma {:induction false} RemainingWithOneMore(all: seq<Consumer>, waiting: set<nat>, id: nat, n: nat)
    requires n <= |all|
    ensures Remaining(all, waiting + {id}, n) <= Remaining(all, waiting, n) + (if id < n then 2 else 0)
  {
    if n > 0 {
      RemainingWithOneMore(all, waiting, id, n - 1);
    }
  }

  /** Worker by worker, a step leaves no more to do for those that `lost` waits for, as they are
      out of the map and get no batch. */
  lemma AwaitedAdvance(g: Group, a: Action, g': Group, id: nat)
    requires HeldOk(g) && CallbackOk(g) && Step(g, a, g') && id in Awaited(g)
    ensures |g'.all| == |g.all| && id < |g.all| && Rank(g'.all[id].worker) <= Rank(g.all[id].worker)
    ensures (a.WorkerQuit? || a.WorkerFinish?) && a.id == id ==> Rank(g'.all[id].worker) < Rank(g.all[id].worker)
  {
  }

  /** Nothing anybody does makes `lost` wait longer, and taking a partition away shortens
      what is left. */
  lemma LossWorkNeverRises(g: Group, a: Action, g': Group)
    requires Inv(g) && Step(g, a, g') && g.callback.Losing?
    ensures LossWork(g') <= LossWork(g)
    ensures a.LoseOne? || a.LoseReturn? ==> LossWork(g') < LossWork(g)
    ensures (a.WorkerQuit? || a.WorkerFinish?) && a.id in g.callback.waiting ==> LossWork(g') < LossWork(g)
  {
    var n, waiting := |g.all|, g.callback.waiting;
    assert |g'.all| == n;
    forall id | id in waiting
      ensures id < n && Rank(g'.all[id].worker) <= Rank(g.all[id].worker)
      ensures (a.WorkerQuit? || a.WorkerFinish?) && a.id == id ==> Rank(g'.all[id].worker) < Rank(g.all[id].worker)
    {
      AwaitedAdvance(g, a, g', id);
    }
    RemainingMonotone(g.all, g'.all, waiting, n);
    if a.LoseOne? {
      RemainingWithOneMore(g'.all, waiting, g.held[a.tp], n);
    }
  }

  /** `lost` is never stuck either: an action is possible that shortens its wait. */
  lemma LossNeverStuck(g: Group)
    requires Reachable(g) && g.callback.Losing?
    ensures exists a, g' :: Step(g, a, g') && LossWork(g') < LossWork(g)
  {
    ReachableHasInv(g);
    var todo, waiting := g.callback.todo, g.callback.waiting;
    var a, g' := LoseReturn, g.(callback := Idle);
    if todo != {} {
      var tp :| tp in todo;
      var id := g.held[tp];
      a := LoseOne(tp);
      g' := g.(held := g.held - {tp}, all := g.all[id := CloseQuit(g.all[id])], callback := Losing(todo - {tp}, waiting + {id}));
    } else if id :| id in waiting && !HasExited(g, id) {
      if g.all[id].worker == Selecting {
        a, g' := WorkerQuit(id), WithWorker(g, id, Exited);
      } else {
        a, g' := WorkerFinish(id), WithWorker(g, id, Selecting);
      }
    }
    assert Step(g, a, g');
    LossWorkNeverRises(g, a, g');
  }

  /** What gracefulShutdown still has to wait for.  A worker it has told to quit can still be
      given a batch by the dispatch under way, so that counts too. */
  function ShutdownWork(g: Group): nat {
    if !g.shutdown.Closing? then
      0
    else
      1 + 3 * |g.shutdown.pending| + Remaining(g.all, g.shutdown.waiting, |g.all|) +
      2 * if g.poller.Dispatching? then |g.poller.todo| else 0
  }

  lemma {:induction false} RemainingOfOne(all: seq<Consumer>, all': seq<Consumer>, waiting: set<nat>, id: nat, n: nat)
    requires n <= |all| && n <= |all'|
    requires forall i :: 0 <= i < n && i != id ==> all'[i].worker == all[i].worker
    ensures Remaining(all', waiting, n) ==
      Remaining(all, waiting, n) + (if id < n && id in waiting then Rank(all'[id].worker) - Rank(all[id].worker) else 0)
  {
    if n > 0 {
      RemainingOfOne(all, all', waiting, id, n - 1);
    }
  }

  lemma {:induction false} RemainingWithNew(all: seq<Consumer>, c: Consumer, waiting: set<nat>, n: nat)
    requires n <= |all|
    ensures Remaining(all + [c], waiting, n) == Remaining(all, waiting, n)
  {
    if n > 0 {
      RemainingWithNew(all, c, waiting, n - 1);
    }
  }

  /** How the wait for the workers changes with a step. */
  lemma RemainingOfStep(g: Group, a: Action, g': Group, waiting: set<nat>)
    requires Step(g, a, g') && forall id :: id in waiting ==> id < |g.all|
    ensures a.Assign? ==> Remaining(g'.all, waiting, |g'.all|) == Remaining(g.all, waiting, |g.all|)
    ensures !a.Assign? && !a.DispatchSend? ==> Remaining(g'.all, waiting, |g'.all|) <= Remaining(g.all, waiting, |g.all|)
    ensures a.DispatchSend? ==> Remaining(g'.all, waiting, |g'.all|) <= Remaining(g.all, waiting, |g.all|) + 1
    ensures (a.WorkerQuit? || a.WorkerCancel? || a.WorkerFinish?) && a.id in waiting ==>
      Remaining(g'.all, waiting, |g'.all|) < Remaining(g.all, waiting, |g.all|)
  {
    if a.Assign? {
      RemainingWithNew(g.all, g'.all[|g.all|], waiting, |g.all|);
    } else if a.DispatchSend? {
      RemainingOfOne(g.all, g'.all, waiting, g.held[g.poller.todo[0].0], |g.all|);
    } else if a.WorkerQuit? || a.WorkerCancel? || a.WorkerFinish? {
      RemainingOfOne(g.all, g'.all, waiting, a.id, |g.all|);
    } else {
      RemainingOfOne(g.all, g'.all, waiting, |g.all|, |g.all|);
    }
  }

  /** Nothing anybody does makes the shutdown wait longer, and its own moves and those of the
      workers it waits for shorten the wait. */
  lemma ShutdownWorkNeverRises(g: Group, a: Action, g': Group)
    requires Inv(g) && Step(g, a, g') && g.shutdown.Closing?
    ensures ShutdownWork(g') <= ShutdownWork(g)
    ensures a.ShutdownClose? || a.ShutdownEnd? ==> ShutdownWork(g') < ShutdownWork(g)
    ensures (a.WorkerQuit? || a.WorkerCancel? || a.WorkerFinish?) && a.id in g.shutdown.waiting ==> ShutdownWork(g') < ShutdownWork(g)
  {
    RemainingOfStep(g, a, g', g.shutdown.waiting);
    if a.ShutdownClose? {
      RemainingWithOneMore(g'.all, g.shutdown.waiting, a.id, |g'.all|);
    }
  }

  /** The shutdown is never stuck: an action is possible that shortens its wait. */
  lemma ShutdownNeverStuck(g: Group)
    requires Reachable(g) && g.shutdown.Closing?
    ensures exists a, g' :: Step(g, a, g') && ShutdownWork(g') < ShutdownWork(g)
  {
    ReachableHasInv(g);
    var pending, waiting := g.shutdown.pending, g.shutdown.waiting;
    var a, g' := ShutdownEnd, g.(shutdown := Closed);
    if pending != {} {
      var id :| id in pending;
      a := ShutdownClose(id);
      g' := g.(all := g.all[id := CloseQuit(g.all[id])], shutdown := Closing(pending - {id}, waiting + {id}));
    } else if id :| id in waiting && !HasExited(g, id) {
      if g.all[id].worker == Selecting {
        a, g' := WorkerQuit(id), WithWorker(g, id, Exited);
      } else {
        a, g' := WorkerFinish(id), WithWorker(g, id, Selecting);
      }
    }
    assert Step(g, a, g');
    ShutdownWorkNeverRises(g, a, g');
  }

  lemma ReachableStep(g: Group, a: Action, g': Group)
    requires Reachable(g) && Step(g, a, g')
    ensures Reachable(g')
  {
    var groups :| Run(groups) && groups[|groups| - 1] == g;
    var longer := groups + [g'];
    assert Next(g, g');
    forall i | 0 < i < |longer|
      ensures NextAt(longer, i)
    {
      assert i < |groups| ==> NextAt(groups, i);
    }
    assert Run(longer);
  }

  /** Shutdown sees to the consumer: it is on one of its lists, and has exited once all is
      closed. */
  ghost predicate SeenTo(g: Group, id: nat) {
    match g.shutdown
    case NotStarted => false
    case Closing(pending, waiting) => id in pending || id in waiting
    case Closed => HasExited(g, id)
  }

  lemma StepKeepsSeenTo(g: Group, a: Action, g': Group, id: nat)
    requires SeenTo(g, id) && Step(g, a, g')
    ensures SeenTo(g', id)
  {
  }

  lemma {:induction false} SeenToUntil(groups: seq<Group>, i: nat, j: nat, id: nat)
    requires Run(groups) && i <= j < |groups| && SeenTo(groups[i], id)
    ensures SeenTo(groups[j], id)
  {
    if i < j {
      SeenToUntil(groups, i, j - 1, id);
      assert NextAt(groups, j);
      var a :| Step(groups[j - 1], a, groups[j]);
      StepKeepsSeenTo(groups[j - 1], a, groups[j], id);
    }
  }

  /** The client is closed only after the worker of every partition that was held when the
      shutdown began has exited, whichever partitions are lost or assigned meanwhile. */
  lemma ShutdownAwaitsEveryWorker(groups: seq<Group>, i: nat, j: nat, tp: TopicPartition)
    requires Run(groups) && i < j < |groups| && tp in groups[i].held
    requires groups[i].shutdown == NotStarted && groups[i + 1].shutdown != NotStarted && groups[j].shutdown == Closed
    ensures HasExited(groups[j], groups[i].held[tp])
  {
    assert NextAt(groups, i + 1);
    assert groups[i].held[tp] in groups[i].held.Values;
    SeenToUntil(groups, i + 1, j, groups[i].held[tp]);
  }

  /** A consumer that shutdown has on its list while `lost` is about to take its partition. */
  lemma TargetedTwice(tp: TopicPartition) returns (g: Group)
    ensures Reachable(g) && g.held == map[tp := 0] && g.all == [Consumer(tp, 0, false, 0, Selecting)]
    ensures g.callback == Losing({tp}, {}) && g.shutdown == Closing({0}, {})
  {
    assert Run([EMPTY]);
    var g1 := EMPTY.(held := map[tp := 0], all := [Consumer(tp, 0, false, 0, Selecting)]);
    ReachableStep(EMPTY, Assign(tp), g1);
    var g2 := g1.(canceled := true);
    ReachableStep(g1, Cancel, g2);
    assert g2.held.Values == {0};
    var g3 := g2.(shutdown := Closing({0}, {}));
    ReachableStep(g2, ShutdownBegin, g3);
    g := g3.(callback := Losing({tp}, {}));
    ReachableStep(g3, LoseBegin({tp}), g);
  }

  /** Shutdown and `lost` can both ask one consumer to quit; that its channel is still closed
      only once is the sync.Once at work. */
  lemma BothCanAskToQuit()
    ensures exists g :: Reachable(g) && |g.all| == 1 && g.all[0].requests == 2 && g.all[0].closes == 1
  {
    var tp := TopicPartition("events", 0);
    var g := TargetedTwice(tp);
    var g' := g.(held := g.held - {tp}, all := g.all[0 := CloseQuit(g.all[0])],
      callback := Losing(g.callback.todo - {tp}, g.callback.waiting + {0}));
    ReachableStep(g, LoseOne(tp), g');
    var g'' := g'.(all := g'.all[0 := CloseQuit(g'.all[0])],
      shutdown := Closing(g'.shutdown.pending - {0}, g'.shutdown.waiting + {0}));
    ReachableStep(g', ShutdownClose(0), g'');
    assert g''.all[0].requests == 2;
  }
}
