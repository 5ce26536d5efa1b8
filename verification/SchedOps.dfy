/** The operations of kernel/thread.c, each as one step of the machine, and what every run keeps. */
module SchedOps {
  import opened Bits
  import opened Lists
  import opened Wrappers
  import opened Sched

  datatype Op =
    | Create(t: Tid, priority: nat, pinned: int, detached: bool, retq: Wq)
    | NewQueue(w: Wq)
    | Resume(t: Tid)
    | Yield(cpu: nat)
    | Preempt(cpu: nat)
    | SetPriority(cpu: nat, wanted: int)
    | Tick(cpu: nat)
    | Sleep(cpu: nat)
    | SleepEnds(t: Tid)
    | Exit(cpu: nat)
    | BlockOn(cpu: nat, w: Wq, timed: bool)
    | WaitReturns(cpu: nat)
    | WakeOne(cpu: nat, w: Wq, resched: bool, err: int)
    | WakeAll(cpu: nat, w: Wq, resched: bool, err: int)
    | TimesOut(t: Tid)

  predicate OnCpu(s: State, cpu: nat)
  {
    cpu < |s.current| && s.current[cpu] in s.threads
  }

  predicate BusyCpu(s: State, cpu: nat)
  {
    OnCpu(s, cpu) && !s.threads[s.current[cpu]].idle
  }

  /** What the source demands of its callers. */
  predicate Enabled(s: State, op: Op)
  {
    match op
    case Create(t, priority, pinned, _, retq) => t !in s.threads && retq !in s.waitqs && priority < NUM_PRIORITIES
    case NewQueue(w) => w !in s.waitqs
    case Resume(t) => t in s.threads && s.threads[t].state != Death
    case Yield(cpu) => OnCpu(s, cpu)
    case Preempt(cpu) => OnCpu(s, cpu)
    case SetPriority(cpu, _) => BusyCpu(s, cpu)
    case Tick(cpu) => OnCpu(s, cpu)
    case Sleep(cpu) => BusyCpu(s, cpu)
    case SleepEnds(t) => t in s.threads && s.threads[t].state == Sleeping
    case Exit(cpu) => BusyCpu(s, cpu)
    case BlockOn(cpu, w, _) => BusyCpu(s, cpu) && w in s.waitqs
    case WaitReturns(cpu) => BusyCpu(s, cpu)
    case WakeOne(cpu, w, resched, _) => OnCpu(s, cpu) && w in s.waitqs && (resched ==> BusyCpu(s, cpu))
    case WakeAll(cpu, w, resched, _) => OnCpu(s, cpu) && w in s.waitqs && (resched ==> BusyCpu(s, cpu))
    case TimesOut(t) => t in s.threads && s.threads[t].timed
  }

  // ---------- pieces ----------

  /** The current thread of a cpu goes back to ready, queued unless it is the idle thread. */
  ghost function StepBack(s: State, cpu: nat, quantum: int, head: bool): State
    requires Inv(s) && cpu < |s.current|
  {
    assert CpuOk(s, cpu) && ThreadOk(s, s.current[cpu]);
    var t := s.current[cpu];
    var th := s.threads[t].(state := Ready, quantum := quantum);
    if th.idle then SetThread(s, t, th) else MakeReady(s, t, th, head)
  }

  /** The current thread has left the running state; nothing else about running has changed. */
  lemma NowLeaving(s: State, s': State, cpu: nat)
    requires RunningIsCurrent(s) && cpu < |s.current| && Base(s') && s'.current == s.current
    requires s.current[cpu] in s.threads && s'.threads.Keys == s.threads.Keys
    requires s'.threads[s.current[cpu]].state != Running
    requires forall t :: t in s.threads && t != s.current[cpu] ==>
               (s'.threads[t].state == Running <==> s.threads[t].state == Running)
    ensures Leaving(s', cpu)
  {
  }

  lemma StepBackLeaves(s: State, cpu: nat, quantum: int, head: bool)
    requires Inv(s) && cpu < |s.current|
    ensures Leaving(StepBack(s, cpu, quantum, head), cpu)
    ensures StepBack(s, cpu, quantum, head).waitqs == s.waitqs
    ensures StepBack(s, cpu, quantum, head).threads.Keys == s.threads.Keys
    ensures forall t :: t in s.threads && t != s.current[cpu] ==>
              StepBack(s, cpu, quantum, head).threads[t] == s.threads[t]
  {
    hide ReadyQueued, Waiting, Bitmap;
    assert CpuOk(s, cpu) && ThreadOk(s, s.current[cpu]);
    var t := s.current[cpu];
    var th := s.threads[t].(state := Ready, quantum := quantum);
    if th.idle {
      UnqueuedKeeps(s, t, th);
    } else {
      MakeReadyKeeps(s, t, th, head);
    }
    NowLeaving(s, StepBack(s, cpu, quantum, head), cpu);
  }

  /** Hand over the cpu. */
  ghost function Switch(s: State, cpu: nat): State
    requires Leaving(s, cpu)
  {
    ReschedKeeps(s, cpu);
    Resched(s, cpu)
  }

  /** A thread listed on wait queue w is blocked on it. */
  lemma Waiter(s: State, w: Wq, t: Tid)
    requires Base(s) && w in s.waitqs && t in s.waitqs[w].list
    ensures t in s.threads && s.threads[t].state == Blocked && s.threads[t].waitq == Some(w)
    ensures |s.runq| == NUM_PRIORITIES && s.threads[t].priority < NUM_PRIORITIES
  {
    assert ThreadOk(s, t);
  }

  /** What waking one thread of wait queue w changes. */
  lemma WakeShape(s: State, w: Wq, t: Tid, err: int)
    requires t in s.threads && s.threads[t].waitq == Some(w) && w in s.waitqs && s.threads[t].priority < |s.runq|
    ensures var s', p := Wake(s, t, err), s.threads[t].priority;
      && s'.current == s.current && s'.idle == s.idle
      && s'.waitqs == s.waitqs[w := WaitQueue(s.waitqs[w].count - 1, Without(s.waitqs[w].list, t))]
      && s'.threads == s.threads[t := s.threads[t].(state := Ready, waitq := None, blockRet := err)]
      && s'.runq == s.runq[p := [t] + s.runq[p]]
  {
  }

  lemma WakeFacts(s: State, w: Wq, t: Tid, err: int)
    requires Base(s) && w in s.waitqs && t in s.waitqs[w].list
    ensures t in s.threads && s.threads[t].waitq == Some(w) && s.threads[t].priority < |s.runq|
    ensures Base(Wake(s, t, err)) && w in Wake(s, t, err).waitqs
    ensures Wake(s, t, err).waitqs[w].list == Without(s.waitqs[w].list, t)
  {
    Waiter(s, w, t);
    WakeKeeps(s, t, err);
  }

  /** Threads woken from the tail of wait queue w, each to the head of its run queue. */
  ghost function WakeFromTail(s: State, w: Wq, err: int): State
    requires Base(s) && w in s.waitqs
    decreases |s.waitqs[w].list|
  {
    var q := s.waitqs[w].list;
    if q == [] then s else
    var t := q[|q| - 1];
    WakeFacts(s, w, t, err);
    WithoutAt(q, |q| - 1);
    WakeFromTail(Wake(s, t, err), w, err)
  }

  /** Thread record th after all threads of w have been woken. */
  function Woken(th: Thread, w: Wq, err: int): Thread
  {
    if th.waitq == Some(w) then th.(state := Ready, waitq := None, blockRet := err) else th
  }

  ghost predicate AllWoken(s: State, s': State, w: Wq, err: int)
  {
    && w in s.waitqs && s'.current == s.current && s'.idle == s.idle && s'.threads.Keys == s.threads.Keys
    && s'.waitqs == s.waitqs[w := WaitQueue(0, [])]
    && forall t :: t in s.threads ==> s'.threads[t] == Woken(s.threads[t], w, err)
  }

  /** Waking them all empties the queue, readies its threads and touches no other. */
  lemma {:induction false} WakeFromTailKeeps(s: State, w: Wq, err: int)
    requires Base(s) && w in s.waitqs
    ensures Base(WakeFromTail(s, w, err)) && AllWoken(s, WakeFromTail(s, w, err), w, err)
    decreases |s.waitqs[w].list|
  {
    hide Bitmap, ReadyQueued, ThreadsOk, Cpus;
    var q := s.waitqs[w].list;
    if q == [] {
      assert s.waitqs[w] == WaitQueue(0, []);
      assert s.waitqs[w := WaitQueue(0, [])] == s.waitqs;
      forall t | t in s.threads ensures s.threads[t].waitq != Some(w) {
        assert t !in s.waitqs[w].list;
      }
    } else {
      var t := q[|q| - 1];
      WakeFacts(s, w, t, err);
      WakeShape(s, w, t, err);
      WithoutAt(q, |q| - 1);
      WakeFromTailKeeps(Wake(s, t, err), w, err);
      AllWokenStep(s, Wake(s, t, err), WakeFromTail(s, w, err), w, t, err);
    }
  }

  lemma AllWokenStep(s: State, s1: State, s2: State, w: Wq, t: Tid, err: int)
    requires w in s.waitqs && t in s.threads && s.threads[t].waitq == Some(w)
    requires s1.current == s.current && s1.idle == s.idle && w in s1.waitqs && s1.waitqs == s.waitqs[w := s1.waitqs[w]]
    requires s1.threads == s.threads[t := s.threads[t].(state := Ready, waitq := None, blockRet := err)]
    requires AllWoken(s1, s2, w, err)
    ensures AllWoken(s, s2, w, err)
  {
  }

  /** The ready threads keep their order: those of w come first, in the order they waited. */
  function OfPriority(s: State, q: seq<Tid>, p: nat): seq<Tid>
  {
    if q == [] then [] else
    var rest := OfPriority(s, q[1..], p);
    if q[0] in s.threads && s.threads[q[0]].priority == p then [q[0]] + rest else rest
  }

  lemma {:induction false} OfPrioritySame(s: State, s': State, q: seq<Tid>, p: nat)
    requires forall t :: t in q ==> t in s.threads && t in s'.threads && s'.threads[t].priority == s.threads[t].priority
    ensures OfPriority(s', q, p) == OfPriority(s, q, p)
  {
    if q != [] {
      assert q[0] in q;
      OfPrioritySame(s, s', q[1..], p);
    }
  }

  lemma {:induction false} OfPriorityLast(s: State, q: seq<Tid>, t: Tid, p: nat)
    ensures OfPriority(s, q + [t], p)
      == OfPriority(s, q, p) + if t in s.threads && s.threads[t].priority == p then [t] else []
  {
    if q == [] {
      assert [t][1..] == [];
      assert q + [t] == [t];
    } else {
      assert (q + [t])[1..] == q[1..] + [t];
      OfPriorityLast(s, q[1..], t, p);
    }
  }

  /** Waking the last of a queue leaves the others. */
  lemma LastWoken(s: State, w: Wq, err: int)
    requires Base(s) && w in s.waitqs && s.waitqs[w].list != []
    ensures var q := s.waitqs[w].list;
            var t := q[|q| - 1];
            && t in q && t in s.threads && s.threads[t].waitq == Some(w) && s.threads[t].priority < |s.runq|
            && Base(Wake(s, t, err)) && w in Wake(s, t, err).waitqs && |s.runq| == NUM_PRIORITIES
            && Wake(s, t, err).waitqs[w].list == q[..|q| - 1] == Without(q, t)
            && WakeFromTail(s, w, err) == WakeFromTail(Wake(s, t, err), w, err)
  {
    hide Wake;
    var q := s.waitqs[w].list;
    var t := q[|q| - 1];
    WakeFacts(s, w, t, err);
    WithoutAt(q, |q| - 1);
    assert q[..|q| - 1] + q[|q|..] == q[..|q| - 1];
  }

  lemma {:induction false} WakeAllOrder(s: State, w: Wq, err: int, p: nat)
    requires Base(s) && w in s.waitqs && p < NUM_PRIORITIES
    ensures |WakeFromTail(s, w, err).runq| == NUM_PRIORITIES
    ensures WakeFromTail(s, w, err).runq[p] == OfPriority(s, s.waitqs[w].list, p) + s.runq[p]
    decreases |s.waitqs[w].list|
  {
    hide Wake;
    var q := s.waitqs[w].list;
    if q != [] {
      var t, front := q[|q| - 1], q[..|q| - 1];
      LastWoken(s, w, err);
      var s1 := Wake(s, t, err);
      WakeAllOrder(s1, w, err, p);
      WakeOrderStep(s, w, t, err, front, p);
      assert q == front + [t];
    }
  }

  lemma WakeOrderStep(s: State, w: Wq, t: Tid, err: int, front: seq<Tid>, p: nat)
    requires Base(s) && w in s.waitqs && t in s.waitqs[w].list && p < NUM_PRIORITIES
    requires forall u :: u in front ==> u in s.waitqs[w].list
    requires t in s.threads && s.threads[t].waitq == Some(w) && s.threads[t].priority < |s.runq| == NUM_PRIORITIES
    ensures OfPriority(Wake(s, t, err), front, p) + Wake(s, t, err).runq[p] == OfPriority(s, front + [t], p) + s.runq[p]
  {
    hide Wake, OfPriority, Bitmap, ReadyQueued, Cpus;
    WakeShape(s, w, t, err);
    forall u | u in front ensures u in s.threads {
      Waiter(s, w, u);
    }
    OfPrioritySame(s, Wake(s, t, err), front, p);
    OfPriorityLast(s, front, t, p);
  }

  // ---------- the operations ----------

  /** Running is untouched. */
  ghost predicate SameRunning(s: State, s': State)
  {
    && s'.current == s.current && s'.threads.Keys == s.threads.Keys
    && forall t :: t in s.threads ==> (s'.threads[t].state == Running <==> s.threads[t].state == Running)
  }

  ghost function DoYield(s: State, cpu: nat): State
    requires Inv(s) && cpu < |s.current|
  {
    StepBackLeaves(s, cpu, 0, false);
    Switch(StepBack(s, cpu, 0, false), cpu)
  }

  ghost function DoPreempt(s: State, cpu: nat): State
    requires Inv(s) && OnCpu(s, cpu)
  {
    var q := s.threads[s.current[cpu]].quantum;
    StepBackLeaves(s, cpu, q, q > 0);
    Switch(StepBack(s, cpu, q, q > 0), cpu)
  }

  function Clamp(priority: int): nat
  {
    if priority <= IDLE_PRIORITY then 1 else if priority > HIGHEST_PRIORITY then 31 else priority
  }

  ghost function DoSetPriority(s: State, cpu: nat, priority: int): State
    requires Inv(s) && BusyCpu(s, cpu)
  {
    var t := s.current[cpu];
    var s1 := MakeReady(s, t, s.threads[t].(state := Ready, priority := Clamp(priority)), true);
    SetPriorityLeaves(s, cpu, priority);
    Switch(s1, cpu)
  }

  lemma SetPriorityLeaves(s: State, cpu: nat, priority: int)
    requires Inv(s) && BusyCpu(s, cpu)
    ensures var t := s.current[cpu];
      Leaving(MakeReady(s, t, s.threads[t].(state := Ready, priority := Clamp(priority)), true), cpu)
  {
    var t := s.current[cpu];
    var th := s.threads[t].(state := Ready, priority := Clamp(priority));
    MakeReadyKeeps(s, t, th, true);
    NowLeaving(s, MakeReady(s, t, th, true), cpu);
  }

  /** thread_timer_tick */
  ghost function DoTick(s: State, cpu: nat): State
    requires OnCpu(s, cpu)
  {
    var t := s.current[cpu];
    var th := s.threads[t];
    if th.realTime || th.idle then s else SetThread(s, t, th.(quantum := th.quantum - 1))
  }

  /** The current thread leaves for a state that has no queue. */
  lemma GoneLeaves(s: State, cpu: nat, to: RunState)
    requires Inv(s) && BusyCpu(s, cpu) && (to == Sleeping || to == Death)
    ensures Leaving(SetThread(s, s.current[cpu], s.threads[s.current[cpu]].(state := to)), cpu)
  {
    var t := s.current[cpu];
    UnqueuedKeeps(s, t, s.threads[t].(state := to));
    NowLeaving(s, SetThread(s, t, s.threads[t].(state := to)), cpu);
  }

  ghost function DoSleep(s: State, cpu: nat): State
    requires Inv(s) && BusyCpu(s, cpu)
  {
    GoneLeaves(s, cpu, Sleeping);
    Switch(SetThread(s, s.current[cpu], s.threads[s.current[cpu]].(state := Sleeping)), cpu)
  }

  /** thread_exit: a joinable thread wakes those who join it. */
  ghost function DoExit(s: State, cpu: nat): State
    requires Inv(s) && BusyCpu(s, cpu)
  {
    var t := s.current[cpu];
    var s1 := SetThread(s, t, s.threads[t].(state := Death));
    GoneLeaves(s, cpu, Death);
    if s.threads[t].detached then Switch(s1, cpu) else
    assert ThreadOk(s1, t);
    WakeFromTailLeaves(s1, cpu, s.threads[t].retq, NO_ERROR);
    Switch(WakeFromTail(s1, s.threads[t].retq, NO_ERROR), cpu)
  }

  lemma WakeFromTailLeaves(s: State, cpu: nat, w: Wq, err: int)
    requires Base(s) && w in s.waitqs
    ensures SameRunning(s, WakeFromTail(s, w, err))
    ensures Leaving(s, cpu) ==> Leaving(WakeFromTail(s, w, err), cpu)
    ensures Inv(s) ==> Inv(WakeFromTail(s, w, err))
  {
    WakeFromTailKeeps(s, w, err);
    var s' := WakeFromTail(s, w, err);
    forall t | t in s.threads ensures s'.threads[t].state == Running <==> s.threads[t].state == Running {
      assert ThreadOk(s, t);
    }
  }

  ghost function DoBlock(s: State, cpu: nat, w: Wq, timed: bool): State
    requires Inv(s) && BusyCpu(s, cpu) && w in s.waitqs
  {
    BlockLeaves(s, cpu, w, timed);
    Switch(Block(s, s.current[cpu], w, timed), cpu)
  }

  lemma BlockLeaves(s: State, cpu: nat, w: Wq, timed: bool)
    requires Inv(s) && BusyCpu(s, cpu) && w in s.waitqs
    ensures Leaving(Block(s, s.current[cpu], w, timed), cpu)
  {
    BlockKeeps(s, s.current[cpu], w, timed);
    NowLeaving(s, Block(s, s.current[cpu], w, timed), cpu);
  }

  /** The tail of wait_queue_block, once the thread runs again: the timer is cancelled. */
  ghost function DoWaitReturns(s: State, cpu: nat): State
    requires OnCpu(s, cpu)
  {
    SetThread(s, s.current[cpu], s.threads[s.current[cpu]].(timed := false))
  }

  lemma WakeLeaves(s: State, cpu: nat, w: Wq, t: Tid, err: int)
    requires Base(s) && w in s.waitqs && t in s.waitqs[w].list
    ensures t in s.threads && s.threads[t].waitq == Some(w) && s.threads[t].priority < |s.runq|
    ensures SameRunning(s, Wake(s, t, err))
    ensures Leaving(s, cpu) ==> Leaving(Wake(s, t, err), cpu)
    ensures Inv(s) ==> Inv(Wake(s, t, err))
  {
    Waiter(s, w, t);
    WakeFacts(s, w, t, err);
    WakeShape(s, w, t, err);
  }

  ghost function DoWakeOne(s: State, cpu: nat, w: Wq, resched: bool, err: int): State
    requires Inv(s) && OnCpu(s, cpu) && w in s.waitqs
  {
    if s.waitqs[w].list == [] then s else
    var t := s.waitqs[w].list[0];
    if resched then
      var q := s.threads[s.current[cpu]].quantum;
      StepBackLeaves(s, cpu, q, true);
      var s1 := StepBack(s, cpu, q, true);
      WakeLeaves(s1, cpu, w, t, err);
      Switch(Wake(s1, t, err), cpu)
    else
      WakeLeaves(s, cpu, w, t, err);
      Wake(s, t, err)
  }

  ghost function DoWakeAll(s: State, cpu: nat, w: Wq, resched: bool, err: int): State
    requires Inv(s) && OnCpu(s, cpu) && w in s.waitqs
  {
    if s.waitqs[w].list == [] then s else
    if resched then
      var q := s.threads[s.current[cpu]].quantum;
      StepBackLeaves(s, cpu, q, true);
      var s1 := StepBack(s, cpu, q, true);
      WakeFromTailLeaves(s1, cpu, w, err);
      Switch(WakeFromTail(s1, w, err), cpu)
    else
      WakeFromTail(s, w, err)
  }

  /** wait_queue_timeout_handler: a thread that is no longer blocked is left alone. */
  ghost function DoTimesOut(s: State, t: Tid): State
    requires Inv(s) && t in s.threads
  {
    assert ThreadOk(s, t);
    if s.threads[t].state == Blocked then Wake(s, t, ERR_TIMED_OUT) else s
  }

  ghost function DoReady(s: State, t: Tid): State
    requires Inv(s) && t in s.threads
  {
    assert ThreadOk(s, t);
    MakeReady(s, t, s.threads[t].(state := Ready), true)
  }

  ghost function DoCreate(s: State, t: Tid, priority: nat, pinned: int, detached: bool, retq: Wq): State
  {
    s.(threads := s.threads[t := Thread(priority, Suspended, 0, false, false, detached, pinned, -1, None, NO_ERROR,
                                        false, retq)],
       waitqs := s.waitqs[retq := WaitQueue(0, [])])
  }

  ghost function Next(s: State, op: Op): State
    requires Inv(s) && Enabled(s, op)
  {
    hide Base;
    match op
    case Create(t, priority, pinned, detached, retq) => DoCreate(s, t, priority, pinned, detached, retq)
    case NewQueue(w) => s.(waitqs := s.waitqs[w := WaitQueue(0, [])])
    case Resume(t) => if s.threads[t].state == Suspended then DoReady(s, t) else s
    case Yield(cpu) => DoYield(s, cpu)
    case Preempt(cpu) => DoPreempt(s, cpu)
    case SetPriority(cpu, priority) => DoSetPriority(s, cpu, priority)
    case Tick(cpu) => DoTick(s, cpu)
    case Sleep(cpu) => DoSleep(s, cpu)
    case SleepEnds(t) => DoReady(s, t)
    case Exit(cpu) => DoExit(s, cpu)
    case BlockOn(cpu, w, timed) => DoBlock(s, cpu, w, timed)
    case WaitReturns(cpu) => DoWaitReturns(s, cpu)
    case WakeOne(cpu, w, resched, err) => DoWakeOne(s, cpu, w, resched, err)
    case WakeAll(cpu, w, resched, err) => DoWakeAll(s, cpu, w, resched, err)
    case TimesOut(t) => DoTimesOut(s, t)
  }

  // ---------- every step keeps the invariant ----------

  lemma SwitchKeeps(s: State, cpu: nat)
    requires Leaving(s, cpu)
    ensures Inv(Switch(s, cpu))
  {
    ReschedKeeps(s, cpu);
  }

  lemma CreateKeeps(s: State, t: Tid, priority: nat, pinned: int, detached: bool, retq: Wq)
    requires Inv(s) && t !in s.threads && retq !in s.waitqs && priority < NUM_PRIORITIES
    ensures Inv(DoCreate(s, t, priority, pinned, detached, retq))
  {
    var s' := DoCreate(s, t, priority, pinned, detached, retq);
    assert t !in s.current && t !in s.idle by {
      forall c | 0 <= c < |s.current| ensures s.current[c] != t { assert CpuOk(s, c); }
    }
    forall q, u | 0 <= q < NUM_PRIORITIES ensures u in s'.runq[q] <==> Queued(s', u, q) {
      assert u in s.runq[q] <==> Queued(s, u, q);
    }
    CreateWaiting(s, s', t, retq);
    forall u | u in s'.threads ensures ThreadOk(s', u) {
      assert u != t ==> ThreadOk(s, u);
    }
    forall c | 0 <= c < |s'.current| ensures CpuOk(s', c) { assert CpuOk(s, c); }
  }

  /** A new, empty wait queue. */
  lemma CreateWaiting(s: State, s': State, t: Tid, w: Wq)
    requires Waiting(s) && ThreadsOk(s) && w !in s.waitqs && s'.waitqs == s.waitqs[w := WaitQueue(0, [])]
    requires s'.threads == s.threads
             || (t !in s.threads && t in s'.threads && s'.threads == s.threads[t := s'.threads[t]]
                 && s'.threads[t].waitq == None)
    ensures Waiting(s')
  {
    forall v, u | v in s'.waitqs
      ensures u in s'.waitqs[v].list <==> u in s'.threads && s'.threads[u].waitq == Some(v)
    {
      assert v != w ==> (u in s.waitqs[v].list <==> u in s.threads && s.threads[u].waitq == Some(v));
      assert u in s.threads ==> ThreadOk(s, u);
    }
  }

  lemma NewQueueKeeps(s: State, w: Wq)
    requires Inv(s) && w !in s.waitqs
    ensures Inv(s.(waitqs := s.waitqs[w := WaitQueue(0, [])]))
  {
    var s' := s.(waitqs := s.waitqs[w := WaitQueue(0, [])]);
    CreateWaiting(s, s', 0, w);
    forall u | u in s'.threads ensures ThreadOk(s', u) { assert ThreadOk(s, u); }
    CpusSame(s, s');
    forall q, u | 0 <= q < NUM_PRIORITIES ensures u in s'.runq[q] <==> Queued(s', u, q) {
      assert u in s.runq[q] <==> Queued(s, u, q);
    }
  }

  lemma ReadyKeeps(s: State, t: Tid)
    requires Inv(s) && t in s.threads && (s.threads[t].state == Suspended || s.threads[t].state == Sleeping)
    ensures Inv(DoReady(s, t))
  {
    assert ThreadOk(s, t);
    MakeReadyKeeps(s, t, s.threads[t].(state := Ready), true);
  }

  lemma TickKeeps(s: State, cpu: nat)
    requires Inv(s) && OnCpu(s, cpu)
    ensures Inv(DoTick(s, cpu))
  {
    assert ThreadOk(s, s.current[cpu]);
    var t := s.current[cpu];
    UnqueuedKeeps(s, t, s.threads[t].(quantum := s.threads[t].quantum - 1));
  }

  lemma WaitReturnsKeeps(s: State, cpu: nat)
    requires Inv(s) && OnCpu(s, cpu)
    ensures Inv(DoWaitReturns(s, cpu))
  {
    assert ThreadOk(s, s.current[cpu]);
    UnqueuedKeeps(s, s.current[cpu], s.threads[s.current[cpu]].(timed := false));
  }

  lemma SwitchingKeeps(s: State, op: Op)
    requires Inv(s) && Enabled(s, op)
    requires op.Yield? || op.Preempt? || op.SetPriority? || op.Sleep? || op.Exit? || op.BlockOn?
    ensures Inv(Next(s, op))
  {
    hide ReadyQueued, Waiting, Cpus;
    var cpu := op.cpu;
    var t := s.current[cpu];
    match op
    case Yield(_) =>
      StepBackLeaves(s, cpu, 0, false);
      SwitchKeeps(StepBack(s, cpu, 0, false), cpu);
    case Preempt(_) =>
      var q := s.threads[t].quantum;
      StepBackLeaves(s, cpu, q, q > 0);
      SwitchKeeps(StepBack(s, cpu, q, q > 0), cpu);
    case SetPriority(_, priority) =>
      SetPriorityLeaves(s, cpu, priority);
      SwitchKeeps(MakeReady(s, t, s.threads[t].(state := Ready, priority := Clamp(priority)), true), cpu);
    case Sleep(_) =>
      GoneLeaves(s, cpu, Sleeping);
      SwitchKeeps(SetThread(s, t, s.threads[t].(state := Sleeping)), cpu);
    case Exit(_) =>
      ExitKeeps(s, cpu);
    case BlockOn(_, w, timed) =>
      BlockLeaves(s, cpu, w, timed);
      SwitchKeeps(Block(s, t, w, timed), cpu);
  }

  lemma ExitKeeps(s: State, cpu: nat)
    requires Inv(s) && BusyCpu(s, cpu)
    ensures Inv(DoExit(s, cpu))
  {
    var t := s.current[cpu];
    var s1 := SetThread(s, t, s.threads[t].(state := Death));
    GoneLeaves(s, cpu, Death);
    if s.threads[t].detached {
      SwitchKeeps(s1, cpu);
    } else {
      assert ThreadOk(s1, t);
      WakeFromTailLeaves(s1, cpu, s.threads[t].retq, NO_ERROR);
      SwitchKeeps(WakeFromTail(s1, s.threads[t].retq, NO_ERROR), cpu);
    }
  }

  lemma WakingKeeps(s: State, op: Op)
    requires Inv(s) && Enabled(s, op) && (op.WakeOne? || op.WakeAll?)
    ensures Inv(Next(s, op))
  {
    var cpu, w, err := op.cpu, op.w, op.err;
    if s.waitqs[w].list != [] {
      var t := s.waitqs[w].list[0];
      var q := s.threads[s.current[cpu]].quantum;
      if op.resched {
        StepBackLeaves(s, cpu, q, true);
        var s1 := StepBack(s, cpu, q, true);
        WakeLeaves(s1, cpu, w, t, err);
        WakeFromTailLeaves(s1, cpu, w, err);
        if op.WakeOne? {
          SwitchKeeps(Wake(s1, t, err), cpu);
        } else {
          SwitchKeeps(WakeFromTail(s1, w, err), cpu);
        }
      } else {
        WakeLeaves(s, cpu, w, t, err);
        WakeFromTailLeaves(s, cpu, w, err);
      }
    }
  }

  lemma TimesOutKeeps(s: State, t: Tid)
    requires Inv(s) && t in s.threads
    ensures Inv(DoTimesOut(s, t))
  {
    assert ThreadOk(s, t);
    if s.threads[t].state == Blocked {
      WakeLeaves(s, 0, s.threads[t].waitq.value, t, ERR_TIMED_OUT);
    }
  }

  /** Every step of the scheduler keeps the global invariant. */
  lemma NextKeeps(s: State, op: Op)
    requires Inv(s) && Enabled(s, op)
    ensures Inv(Next(s, op))
  {
    hide Base, DoCreate, DoReady, DoTick, DoWaitReturns, DoTimesOut, DoYield, DoPreempt, DoSetPriority, DoSleep,
         DoExit, DoBlock, DoWakeOne, DoWakeAll;
    match op
    case Create(t, priority, pinned, detached, retq) => CreateKeeps(s, t, priority, pinned, detached, retq);
    case NewQueue(w) => NewQueueKeeps(s, w);
    case Resume(t) => if s.threads[t].state == Suspended { ReadyKeeps(s, t); }
    case SleepEnds(t) => ReadyKeeps(s, t);
    case Tick(cpu) => TickKeeps(s, cpu);
    case WaitReturns(cpu) => WaitReturnsKeeps(s, cpu);
    case WakeOne(_, _, _, _) => WakingKeeps(s, op);
    case WakeAll(_, _, _, _) => WakingKeeps(s, op);
    case TimesOut(t) => TimesOutKeeps(s, t);
    case _ => SwitchingKeeps(s, op);
  }

  /** A run of the scheduler: from each state that meets the invariant, an enabled operation. */
  ghost predicate IsRun(states: seq<State>, ops: seq<Op>)
  {
    && |states| == |ops| + 1
    && forall k :: 0 <= k < |ops| ==>
         Enabled(states[k], ops[k]) && (Inv(states[k]) ==> states[k + 1] == Next(states[k], ops[k]))
  }

  /** Whatever the interleaving, every state of a run meets the invariant if the first does. */
  lemma {:induction false} RunKeeps(states: seq<State>, ops: seq<Op>, k: nat)
    requires IsRun(states, ops) && k < |states| && Inv(states[0])
    ensures Inv(states[k])
  {
    if k > 0 {
      RunKeeps(states, ops, k - 1);
      NextKeeps(states[k - 1], ops[k - 1]);
    }
  }

  function EmptyQueue(w: Wq): WaitQueue
  {
    WaitQueue(0, [])
  }

  /** The machine as boot leaves it: n cpus, each running its own idle thread. */
  function Boot(n: nat): State
  {
    State(
      map c: nat | c < n :: Thread(0, Running, 0, true, false, true, c, c, None, NO_ERROR, false, c),
      seq(NUM_PRIORITIES, _ => []), 0,
      map c: nat | c < n :: EmptyQueue(c),
      seq(n, c => c), seq(n, c => c))
  }

  lemma BootOk(n: nat)
    ensures Inv(Boot(n))
  {
    var s := Boot(n);
    forall q: nat ensures !Bit(s.bitmap, q) {
      NoBits(q);
    }
    forall t | t in s.threads ensures ThreadOk(s, t) && t in s.current && t in s.idle {
      assert s.current[t] == t && s.idle[t] == t;
    }
  }
}
