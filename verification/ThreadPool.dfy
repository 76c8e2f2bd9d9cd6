/**
 The worker pool: a task queue under a mutex, a condition variable and a stop flag.
 Each step below is one critical section, one notification, or the end of one task, so a run is
 any interleaving of enqueuers, workers, spurious wake-ups and the destructor.
 */
module ThreadPool {
  type Task = nat

  datatype Worker =
    | Waiting              // blocked on the condition variable
    | Awake                // about to take the mutex and test the wait condition
    | Running(task: Task)
    | Exited

  datatype Pool = Pool(
    tasks: seq<Task>,
    stop: bool,
    workers: seq<Worker>,
    notices: nat,              // pushes whose notify_one is still to come
    broadcast: bool,           // the destructor's notify_all is still to come
    enqueued: seq<Task>,       // history: every task pushed, in order
    started: seq<Task>,        // history: every task taken, in order
    finished: multiset<Task>   // history: every task that has returned
  )

  datatype Action =
    | Push(task: Task)
    | NotifyOne(i: nat)   // wakes worker `i`, or nobody when nobody waits
    | SpuriousWake(i: nat)
    | Work(i: nat)        // worker `i` tests the wait condition, or ends its task
    | Stop
    | NotifyAll

  predicate NobodyWaits(ws: seq<Worker>) {
    forall k :: 0 <= k < |ws| ==> !ws[k].Waiting?
  }

  predicate AllExited(ws: seq<Worker>) {
    forall k :: 0 <= k < |ws| ==> ws[k].Exited?
  }

  predicate Legal(p: Pool, a: Action) {
    match a
    case Push(_) => true
    case NotifyOne(i) => p.notices > 0 && (NobodyWaits(p.workers) || (i < |p.workers| && p.workers[i].Waiting?))
    case SpuriousWake(i) => i < |p.workers| && p.workers[i].Waiting?
    case Work(i) => i < |p.workers| && (p.workers[i].Awake? || p.workers[i].Running?)
    case Stop => !p.stop
    case NotifyAll => p.broadcast
  }

  function WakeAll(ws: seq<Worker>): (r: seq<Worker>)
    ensures |r| == |ws|
    ensures forall k :: 0 <= k < |ws| ==> r[k] == if ws[k].Waiting? then Awake else ws[k]
  {
    seq(|ws|, k requires 0 <= k < |ws| => if ws[k].Waiting? then Awake else ws[k])
  }

  function Step(p: Pool, a: Action): Pool
    requires Legal(p, a)
  {
    match a
    case Push(task) => p.(tasks := p.tasks + [task], enqueued := p.enqueued + [task], notices := p.notices + 1)
    case NotifyOne(i) =>
      p.(notices := p.notices - 1, workers := if NobodyWaits(p.workers) then p.workers else p.workers[i := Awake])
    case SpuriousWake(i) => p.(workers := p.workers[i := Awake])
    case Stop => p.(stop := true, broadcast := true)
    case NotifyAll => p.(broadcast := false, workers := WakeAll(p.workers))
    case Work(i) =>
      if p.workers[i].Running? then
        p.(workers := p.workers[i := Awake], finished := p.finished + multiset{p.workers[i].task})
      else if p.tasks != [] then
        p.(tasks := p.tasks[1..], workers := p.workers[i := Running(p.tasks[0])], started := p.started + [p.tasks[0]])
      else
        p.(workers := p.workers[i := if p.stop then Exited else Waiting])
  }

  predicate LegalRun(p: Pool, actions: seq<Action>)
    decreases |actions|
  {
    actions != [] ==> Legal(p, actions[0]) && LegalRun(Step(p, actions[0]), actions[1..])
  }

  function Run(p: Pool, actions: seq<Action>): Pool
    requires LegalRun(p, actions)
    decreases |actions|
  {
    if actions == [] then p else Run(Step(p, actions[0]), actions[1..])
  }

  function StartPool(n: nat): Pool {
    Pool([], false, seq(n, _ => Awake), 0, false, [], [], multiset{})
  }

  // ----- counting over workers -----

  function Awakes(ws: seq<Worker>): nat {
    if ws == [] then 0 else Awakes(ws[1..]) + if ws[0].Awake? then 1 else 0
  }

  function TaskOf(w: Worker): multiset<Task> {
    if w.Running? then multiset{w.task} else multiset{}
  }

  function InHand(ws: seq<Worker>): multiset<Task> {
    if ws == [] then multiset{} else TaskOf(ws[0]) + InHand(ws[1..])
  }

  function Weight(w: Worker): nat {
    match w case Running(_) => 2 case Awake => 1 case Waiting => 0 case Exited => 0
  }

  function Weights(ws: seq<Worker>): nat {
    if ws == [] then 0 else Weights(ws[1..]) + Weight(ws[0])
  }

  lemma {:induction false} Replace(ws: seq<Worker>, i: nat, w: Worker)
    requires i < |ws|
    ensures Awakes(ws[i := w]) == Awakes(ws) - (if ws[i].Awake? then 1 else 0) + if w.Awake? then 1 else 0
    ensures Weights(ws[i := w]) == Weights(ws) - Weight(ws[i]) + Weight(w)
  {
    if i == 0 {
      assert ws[i := w][1..] == ws[1..];
    } else {
      Replace(ws[1..], i - 1, w);
      assert ws[i := w][1..] == ws[1..][i - 1 := w];
    }
  }

  lemma AddedBoth(head: multiset<Task>, after: multiset<Task>, before: multiset<Task>, left: multiset<Task>, taken: multiset<Task>)
    requires after + left == before + taken
    ensures (head + after) + left == (head + before) + taken
  {
    assert (head + after) + left == head + (after + left);
    assert (head + before) + taken == head + (before + taken);
  }

  lemma Exchanged(left: multiset<Task>, taken: multiset<Task>, rest: multiset<Task>)
    ensures (taken + rest) + left == (left + rest) + taken
  {
  }

  lemma {:induction false} ReplaceInHand(ws: seq<Worker>, i: nat, w: Worker)
    requires i < |ws|
    ensures InHand(ws[i := w]) + TaskOf(ws[i]) == InHand(ws) + TaskOf(w)
  {
    var after := ws[i := w];
    if i == 0 {
      assert after[1..] == ws[1..];
      Exchanged(TaskOf(ws[0]), TaskOf(w), InHand(ws[1..]));
    } else {
      ReplaceInHand(ws[1..], i - 1, w);
      assert after[1..] == ws[1..][i - 1 := w];
      AddedBoth(TaskOf(ws[0]), InHand(after[1..]), InHand(ws[1..]), TaskOf(ws[i]), TaskOf(w));
    }
  }

  lemma SameHands(ws: seq<Worker>, i: nat, w: Worker)
    requires i < |ws| && !ws[i].Running? && !w.Running?
    ensures InHand(ws[i := w]) == InHand(ws)
  {
    ReplaceInHand(ws, i, w);
    assert InHand(ws[i := w]) + multiset{} == InHand(ws[i := w]);
    assert InHand(ws) + multiset{} == InHand(ws);
  }

  lemma TakenInHand(ws: seq<Worker>, i: nat, task: Task)
    requires i < |ws| && !ws[i].Running?
    ensures InHand(ws[i := Running(task)]) == InHand(ws) + multiset{task}
  {
    ReplaceInHand(ws, i, Running(task));
    assert InHand(ws[i := Running(task)]) + multiset{} == InHand(ws[i := Running(task)]);
  }

  lemma ReturnedFromHand(ws: seq<Worker>, i: nat)
    requires i < |ws| && ws[i].Running?
    ensures InHand(ws) == InHand(ws[i := Awake]) + multiset{ws[i].task}
  {
    ReplaceInHand(ws, i, Awake);
    assert InHand(ws) + multiset{} == InHand(ws);
  }

  lemma {:induction false} Woken(ws: seq<Worker>)
    ensures Awakes(WakeAll(ws)) >= Awakes(ws)
    ensures InHand(WakeAll(ws)) == InHand(ws)
  {
    if ws != [] {
      Woken(ws[1..]);
      assert WakeAll(ws)[1..] == WakeAll(ws[1..]);
    }
  }

  lemma {:induction false} Idle(ws: seq<Worker>)
    requires forall k :: 0 <= k < |ws| ==> !ws[k].Running?
    ensures InHand(ws) == multiset{}
  {
    if ws != [] {
      Idle(ws[1..]);
    }
  }

  lemma {:induction false} AwakeExists(ws: seq<Worker>)
    requires Awakes(ws) > 0
    ensures Awake in ws
  {
    if !ws[0].Awake? {
      AwakeExists(ws[1..]);
    }
  }

  // ----- what every step keeps -----

  /** Tasks start in the order in which they were pushed; each started one is finished or in the hands of one worker. */
  ghost predicate Conserved(p: Pool) {
    && p.enqueued == p.started + p.tasks
    && multiset(p.started) == p.finished + InHand(p.workers)
  }

  /** A worker sleeps only while each queued task has an awake worker or a notification of its own. */
  predicate Covered(p: Pool) {
    NobodyWaits(p.workers) || |p.tasks| <= Awakes(p.workers) + p.notices
  }

  predicate StopSeen(p: Pool) {
    && (p.broadcast ==> p.stop)
    && (p.stop && !p.broadcast ==> NobodyWaits(p.workers))
    && p.workers != []
  }

  ghost predicate Valid(p: Pool) {
    Conserved(p) && Covered(p) && StopSeen(p)
  }

  lemma ToFinished(started: multiset<Task>, finished: multiset<Task>, hand: multiset<Task>, task: multiset<Task>)
    requires started == finished + (hand + task)
    ensures started == (finished + task) + hand
  {
  }

  lemma FromQueue(started: multiset<Task>, finished: multiset<Task>, hand: multiset<Task>, task: multiset<Task>)
    requires started == finished + hand
    ensures started + task == finished + (hand + task)
  {
  }

  lemma WorkConserves(p: Pool, i: nat)
    requires Conserved(p) && Legal(p, Work(i))
    ensures Conserved(Step(p, Work(i)))
  {
    if p.workers[i].Running? {
      ReturnedFromHand(p.workers, i);
      ToFinished(multiset(p.started), p.finished, InHand(p.workers[i := Awake]), multiset{p.workers[i].task});
    } else if p.tasks != [] {
      var task := p.tasks[0];
      TakenInHand(p.workers, i, task);
      assert p.started + p.tasks == (p.started + [task]) + p.tasks[1..];
      FromQueue(multiset(p.started), p.finished, InHand(p.workers), multiset{task});
    } else {
      SameHands(p.workers, i, if p.stop then Exited else Waiting);
    }
  }

  lemma StepConserves(p: Pool, a: Action)
    requires Conserved(p) && Legal(p, a)
    ensures Conserved(Step(p, a))
  {
    match a
    case Push(task) => assert p.started + (p.tasks + [task]) == (p.started + p.tasks) + [task];
    case NotifyAll => Woken(p.workers);
    case Stop =>
    case NotifyOne(i) =>
      if !NobodyWaits(p.workers) {
        SameHands(p.workers, i, Awake);
      }
    case SpuriousWake(i) => SameHands(p.workers, i, Awake);
    case Work(i) => WorkConserves(p, i);
  }

  lemma StepCovers(p: Pool, a: Action)
    requires Covered(p) && Legal(p, a)
    ensures Covered(Step(p, a))
  {
    match a
    case NotifyOne(i) =>
      if !NobodyWaits(p.workers) {
        Replace(p.workers, i, Awake);
      }
    case SpuriousWake(i) => Replace(p.workers, i, Awake);
    case Work(i) => Replace(p.workers, i, Step(p, a).workers[i]);
    case _ =>
  }

  lemma StepSeesStop(p: Pool, a: Action)
    requires StopSeen(p) && Legal(p, a)
    ensures StopSeen(Step(p, a))
  {
  }

  lemma StepKeepsValid(p: Pool, a: Action)
    requires Valid(p) && Legal(p, a)
    ensures Valid(Step(p, a))
  {
    StepConserves(p, a);
    StepCovers(p, a);
    StepSeesStop(p, a);
  }

  lemma {:induction false} RunKeepsValid(p: Pool, actions: seq<Action>)
    requires Valid(p) && LegalRun(p, actions)
    ensures Valid(Run(p, actions))
    decreases |actions|
  {
    if actions != [] {
      StepKeepsValid(p, actions[0]);
      RunKeepsValid(Step(p, actions[0]), actions[1..]);
    }
  }

  lemma StartValid(n: nat)
    requires n > 0
    ensures Valid(StartPool(n))
  {
    Idle(StartPool(n).workers);
  }

  /** The tasks given to `enqueue` in a run, in order. */
  function Pushed(actions: seq<Action>): seq<Task> {
    if actions == [] then []
    else (if actions[0].Push? then [actions[0].task] else []) + Pushed(actions[1..])
  }

  lemma {:induction false} EnqueuedIsPushed(p: Pool, actions: seq<Action>)
    requires LegalRun(p, actions)
    ensures Run(p, actions).enqueued == p.enqueued + Pushed(actions)
    decreases |actions|
  {
    if actions == [] {
      assert p.enqueued + [] == p.enqueued;
    } else {
      EnqueuedIsPushed(Step(p, actions[0]), actions[1..]);
      var first := if actions[0].Push? then [actions[0].task] else [];
      assert p.enqueued + (first + Pushed(actions[1..])) == (p.enqueued + first) + Pushed(actions[1..]);
      assert Step(p, actions[0]).enqueued == p.enqueued + first;
    }
  }

  /**
   In every run, the tasks started and then those queued are the tasks given to `enqueue`, in order, and each
   of them is finished once, in the hands of one worker, or queued.
   */
  lemma FifoAndNoLoss(n: nat, actions: seq<Action>)
    requires n > 0 && LegalRun(StartPool(n), actions)
    ensures var p := Run(StartPool(n), actions);
            && Pushed(actions) == p.started + p.tasks
            && multiset(Pushed(actions)) == p.finished + InHand(p.workers) + multiset(p.tasks)
  {
    StartValid(n);
    RunKeepsValid(StartPool(n), actions);
    EnqueuedIsPushed(StartPool(n), actions);
    assert [] + Pushed(actions) == Pushed(actions);
  }

  lemma {:induction false} RunAppend(p: Pool, xs: seq<Action>, ys: seq<Action>)
    requires LegalRun(p, xs) && LegalRun(Run(p, xs), ys)
    ensures LegalRun(p, xs + ys) && Run(p, xs + ys) == Run(Run(p, xs), ys)
    decreases |xs|
  {
    if xs == [] {
      assert xs + ys == ys;
    } else {
      RunAppend(Step(p, xs[0]), xs[1..], ys);
      assert (xs + ys)[1..] == xs[1..] + ys;
    }
  }

  lemma RunOne(p: Pool, a: Action)
    requires Legal(p, a)
    ensures LegalRun(p, [a]) && Run(p, [a]) == Step(p, a)
  {
    assert [a][1..] == [];
    assert Run(Step(p, a), []) == Step(p, a);
  }

  lemma RunTwo(p: Pool, a: Action, b: Action)
    requires Legal(p, a) && Legal(Step(p, a), b)
    ensures LegalRun(p, [a, b]) && Run(p, [a, b]) == Step(Step(p, a), b)
  {
    RunOne(p, a);
    RunOne(Step(p, a), b);
    RunAppend(p, [a], [b]);
    assert [a] + [b] == [a, b];
  }

  /** A worker that is notified or wakes by itself is awake, no other worker moves, and no task either. */
  lemma WakesOne(p: Pool, i: nat)
    requires i < |p.workers| && p.workers[i].Waiting?
    ensures Step(p, SpuriousWake(i)) == p.(workers := p.workers[i := Awake])
    ensures p.notices > 0 ==> Step(p, NotifyOne(i)) == p.(workers := p.workers[i := Awake], notices := p.notices - 1)
  {
  }

  /** Nothing queued is ever stuck: while a worker is left, the next queued task can be started within two steps. */
  lemma QueuedTaskCanStart(p: Pool) returns (actions: seq<Action>)
    requires Valid(p) && p.tasks != [] && !AllExited(p.workers)
    ensures LegalRun(p, actions) && |actions| <= 2
    ensures Run(p, actions).started == p.started + [p.tasks[0]]
    ensures Running(p.tasks[0]) in Run(p, actions).workers
  {
    if Awake in p.workers {
      var i :| 0 <= i < |p.workers| && p.workers[i] == Awake;
      actions := [Work(i)];
      RunOne(p, Work(i));
      assert Step(p, Work(i)).workers[i] == Running(p.tasks[0]);
    } else {
      var i: nat, first: Action;
      if NobodyWaits(p.workers) {
        i :| 0 <= i < |p.workers| && !p.workers[i].Exited?;
        first := Work(i);
      } else {
        i :| 0 <= i < |p.workers| && p.workers[i].Waiting?;
        first := NotifyOne(i);
        if p.notices == 0 {
          AwakeExists(p.workers);
        }
      }
      actions := [first, Work(i)];
      assert Step(p, first).workers[i] == Awake;
      RunTwo(p, first, Work(i));
      assert Step(Step(p, first), Work(i)).workers[i] == Running(p.tasks[0]);
    }
  }

  /**
   No lost wake-up: with work queued and a worker asleep, a worker is awake or a notification is on its way;
   and unless all workers have exited, somebody is busy or about to be woken.
   */
  lemma NoLostWakeup(n: nat, actions: seq<Action>)
    requires n > 0 && LegalRun(StartPool(n), actions)
    ensures var p := Run(StartPool(n), actions);
            p.tasks != [] && Waiting in p.workers ==> Awake in p.workers || p.notices > 0
    ensures var p := Run(StartPool(n), actions);
            p.tasks != [] && p.notices == 0 ==>
              AllExited(p.workers) || exists w :: w in p.workers && (w.Awake? || w.Running?)
  {
    StartValid(n);
    RunKeepsValid(StartPool(n), actions);
    var p := Run(StartPool(n), actions);
    if p.tasks != [] && Waiting in p.workers && p.notices == 0 {
      AwakeExists(p.workers);
    }
    if p.tasks != [] && p.notices == 0 && !AllExited(p.workers) {
      var k :| 0 <= k < |p.workers| && !p.workers[k].Exited?;
      assert p.workers[k] in p.workers;
    }
  }

  // ----- shutdown -----

  /** Every push, before or after `Stop`, happens while some worker has not exited. */
  predicate AllAttended(p: Pool, actions: seq<Action>)
    requires LegalRun(p, actions)
    decreases |actions|
  {
    actions != [] ==>
      && (actions[0].Push? ==> !AllExited(p.workers))
      && AllAttended(Step(p, actions[0]), actions[1..])
  }

  lemma ExitLeavesNoTask(p: Pool, a: Action)
    requires Legal(p, a) && (a.Push? ==> !AllExited(p.workers))
    requires AllExited(p.workers) ==> p.tasks == []
    ensures AllExited(Step(p, a).workers) ==> Step(p, a).tasks == []
  {
    var ws := Step(p, a).workers;
    match a
    case Work(i) => assert ws[i].Exited? ==> p.tasks == [];
    case SpuriousWake(i) => assert !ws[i].Exited?;
    case NotifyOne(i) => assert !NobodyWaits(p.workers) ==> !ws[i].Exited?;
    case NotifyAll => assert forall k :: 0 <= k < |ws| && ws[k].Exited? ==> p.workers[k].Exited?;
    case _ =>
  }

  lemma {:induction false} AttendedDrains(p: Pool, actions: seq<Action>)
    requires LegalRun(p, actions) && AllAttended(p, actions)
    requires AllExited(p.workers) ==> p.tasks == []
    ensures AllExited(Run(p, actions).workers) ==> Run(p, actions).tasks == []
    decreases |actions|
  {
    if actions != [] {
      var p' := Step(p, actions[0]);
      ExitLeavesNoTask(p, actions[0]);
      AttendedDrains(p', actions[1..]);
    }
  }

  lemma {:induction false} AbandonedStays(p: Pool, actions: seq<Action>)
    requires LegalRun(p, actions) && AllExited(p.workers)
    ensures Run(p, actions).started == p.started && |Run(p, actions).tasks| >= |p.tasks|
    decreases |actions|
  {
    if actions != [] {
      AbandonedStays(Step(p, actions[0]), actions[1..]);
    }
  }

  lemma {:induction false} UnattendedLoses(p: Pool, actions: seq<Action>)
    requires LegalRun(p, actions) && !AllAttended(p, actions)
    ensures Run(p, actions).tasks != []
    decreases |actions|
  {
    var p' := Step(p, actions[0]);
    if actions[0].Push? && AllExited(p.workers) {
      AbandonedStays(p', actions[1..]);
    } else {
      UnattendedLoses(p', actions[1..]);
    }
  }

  /**
   Once all workers have exited, every task ever enqueued has finished, exactly when no task was
   pushed after the last exit; pushes that merely follow `Stop` are still served.
   */
  lemma DrainedIffAttended(n: nat, actions: seq<Action>)
    requires n > 0 && LegalRun(StartPool(n), actions)
    requires AllExited(Run(StartPool(n), actions).workers)
    ensures Run(StartPool(n), actions).finished == multiset(Pushed(actions))
            <==> AllAttended(StartPool(n), actions)
  {
    var s := StartPool(n);
    var p := Run(s, actions);
    EnqueuedIsPushed(s, actions);
    assert p.enqueued == Pushed(actions);
    StartValid(n);
    RunKeepsValid(s, actions);
    Idle(p.workers);
    assert |p.enqueued| == |p.started| + |p.tasks|;
    assert |multiset(p.enqueued)| == |p.enqueued| && |multiset(p.started)| == |p.started|;
    if AllAttended(s, actions) {
      AttendedDrains(s, actions);
      assert p.started + p.tasks == p.started;
    } else {
      UnattendedLoses(s, actions);
    }
  }

  /** What a caller can see to: a task is pushed before stop is set, or by a task that is running. */
  predicate PushedInTime(p: Pool, actions: seq<Action>)
    requires LegalRun(p, actions)
    decreases |actions|
  {
    actions != [] ==>
      && (actions[0].Push? ==> !p.stop || exists w :: w in p.workers && w.Running?)
      && PushedInTime(Step(p, actions[0]), actions[1..])
  }

  /** No worker exits before stop, so such pushes are all attended. */
  lemma {:induction false} PushedInTimeIsAttended(p: Pool, actions: seq<Action>)
    requires LegalRun(p, actions) && PushedInTime(p, actions)
    requires p.workers != [] && (!p.stop ==> Exited !in p.workers)
    ensures AllAttended(p, actions)
    decreases |actions|
  {
    if actions != [] {
      if actions[0].Push? && !p.stop {
        assert p.workers[0] in p.workers;
      }
      PushedInTimeIsAttended(Step(p, actions[0]), actions[1..]);
    }
  }

  /** For callers that push in time, every task enqueued has finished once all workers have exited. */
  lemma InTimeIsDrained(n: nat, actions: seq<Action>)
    requires n > 0 && LegalRun(StartPool(n), actions) && PushedInTime(StartPool(n), actions)
    requires AllExited(Run(StartPool(n), actions).workers)
    ensures Run(StartPool(n), actions).finished == multiset(Pushed(actions))
  {
    PushedInTimeIsAttended(StartPool(n), actions);
    DrainedIffAttended(n, actions);
  }

  function Measure(p: Pool): nat {
    3 * |p.tasks| + Weights(p.workers) + p.notices
  }

  /** After stop and notify_all no worker sleeps, and every step that is not a push brings the end closer. */
  lemma ShutdownStep(p: Pool, a: Action)
    requires Valid(p) && p.stop && !p.broadcast && Legal(p, a) && !a.Push?
    ensures NobodyWaits(p.workers)
    ensures Step(p, a).stop && !Step(p, a).broadcast
    ensures Measure(Step(p, a)) < Measure(p)
  {
    if a.Work? {
      Replace(p.workers, a.i, Step(p, a).workers[a.i]);
    }
  }

  /** Until all workers have exited, one of them can move. */
  lemma ShutdownProgress(p: Pool) returns (a: Action)
    requires Valid(p) && p.stop && !p.broadcast && !AllExited(p.workers)
    ensures a.Work? && Legal(p, a)
  {
    var i :| 0 <= i < |p.workers| && !p.workers[i].Exited?;
    a := Work(i);
  }

  /** The shutdown ends: without further pushes a run has bounded length, and one that cannot go on has all workers exited. */
  lemma {:induction false} ShutdownTerminates(p: Pool, actions: seq<Action>)
    requires Valid(p) && p.stop && !p.broadcast && LegalRun(p, actions)
    requires forall a :: a in actions ==> !a.Push?
    ensures |actions| <= Measure(p)
    ensures (forall i: nat :: !Legal(Run(p, actions), Work(i))) ==> AllExited(Run(p, actions).workers)
    decreases |actions|
  {
    if actions == [] {
      if !AllExited(p.workers) {
        var a := ShutdownProgress(p);
        assert Legal(Run(p, actions), Work(a.i));
      }
    } else {
      ShutdownStep(p, actions[0]);
      StepKeepsValid(p, actions[0]);
      ShutdownTerminates(Step(p, actions[0]), actions[1..]);
    }
  }

  // ----- the pool itself -----

  class WorkerPool {
    var tasks: seq<Task>
    var stop: bool
    var workers: seq<Worker>
    ghost var notices: nat
    ghost var broadcast: bool
    ghost var enqueued: seq<Task>
    ghost var started: seq<Task>
    ghost var finished: multiset<Task>

    ghost function View(): Pool
      reads this
    {
      Pool(tasks, stop, workers, notices, broadcast, enqueued, started, finished)
    }

    /** `hardware` is the platform's concurrency hint, possibly 0. */
    constructor (size: int, hardware: nat)
      ensures View() == StartPool(if size > 0 then size else if hardware > 0 then hardware else 4)
      ensures |workers| == if size > 0 then size else if hardware > 0 then hardware else 4
      ensures tasks == [] && !stop && forall i :: 0 <= i < |workers| ==> workers[i] == Awake
    {
      var n := size;
      if n <= 0 {
        n := hardware;
        if n <= 0 {
          n := 4;
        }
      }
      tasks, stop, notices, broadcast := [], false, 0, false;
      enqueued, started, finished := [], [], multiset{};
      workers := seq(n, _ => Awake);
    }

    /** The critical section of `enqueue`. */
    method PushTask(task: Task)
      modifies this
      ensures View() == Step(old(View()), Push(task))
      ensures tasks == old(tasks) + [task]
    {
      tasks := tasks + [task];
      notices, enqueued := notices + 1, enqueued + [task];
    }

    /** One turn of the worker loop: the wait condition and the take, or the return of the task. */
    method WorkTurn(i: nat)
      requires Legal(View(), Work(i))
      modifies this
      ensures View() == Step(old(View()), Work(i))
    {
      if workers[i].Running? {
        finished := finished + multiset{workers[i].task};
        workers := workers[i := Awake];
        return;
      }
      if !(stop || tasks != []) {
        workers := workers[i := Waiting];
        return;
      }
      if stop && tasks == [] {
        workers := workers[i := Exited];
        return;
      }
      var task := tasks[0];
      tasks := tasks[1..];
      started := started + [task];
      workers := workers[i := Running(task)];
    }

    /** `i` is the waiting worker that the condition variable picks, if any waits. */
    method Notify(i: nat)
      requires Legal(View(), NotifyOne(i))
      modifies this
      ensures View() == Step(old(View()), NotifyOne(i))
    {
      notices := notices - 1;
      if !NobodyWaits(workers) {
        workers := workers[i := Awake];
      }
    }

    /** The critical section of the destructor. */
    method RequestStop()
      requires Legal(View(), Stop)
      modifies this
      ensures View() == Step(old(View()), Stop)
    {
      stop := true;
      broadcast := true;
    }

    method Broadcast()
      requires Legal(View(), NotifyAll)
      modifies this
      ensures View() == Step(old(View()), NotifyAll)
    {
      broadcast := false;
      workers := WakeAll(workers);
    }
  }
}
