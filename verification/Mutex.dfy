/** kernel/mutex.c on top of the scheduler.  mutex_acquire_timeout is two steps: the part up to the
    reschedule inside wait_queue_block, and the part after it, when the thread runs again. */
module Mutex {
  import opened Bits
  import opened Lists
  import opened Wrappers
  import opened Sched
  import opened SchedOps

  /** `inside` are the threads between those two parts. */
  datatype World = World(k: State, wq: Wq, count: int, holder: Option<Tid>, inside: set<Tid>)

  datatype Step =
    | Acquire(cpu: nat, timeout: nat)
    | Return(cpu: nat)
    | Release(cpu: nat)
    | Other(op: Op)

  ghost predicate Waits(w: World, t: Tid)
  {
    t in w.k.threads && w.k.threads[t].waitq == Some(w.wq)
  }

  /** Woken by a release, not yet running: the mutex is already its own. */
  ghost predicate Granted(w: World, t: Tid)
  {
    t in w.inside && t in w.k.threads && !Waits(w, t) && w.k.threads[t].blockRet == NO_ERROR
  }

  /** Timed out, but has not yet taken its count back. */
  ghost predicate Expired(w: World, t: Tid)
  {
    t in w.inside && t in w.k.threads && !Waits(w, t) && w.k.threads[t].blockRet == ERR_TIMED_OUT
  }

  ghost predicate Owned(w: World)
  {
    w.holder.Some? || exists t :: Granted(w, t)
  }

  /** The threads inside are the waiting, the granted and the expired ones. */
  ghost predicate InsideOk(w: World, t: Tid)
  {
    && t in w.k.threads && !w.k.threads[t].idle
    && (w.k.threads[t].waitq == None || w.k.threads[t].waitq == Some(w.wq))
    && (w.k.threads[t].waitq == None ==>
          && (w.k.threads[t].blockRet == NO_ERROR || w.k.threads[t].blockRet == ERR_TIMED_OUT)
          && (w.k.threads[t].state == Ready || w.k.threads[t].state == Running))
  }

  /** The invariant of the mutex. */
  ghost predicate MutexInv(w: World)
  {
    && Inv(w.k) && w.wq in w.k.waitqs
    && (forall t :: t in w.k.threads ==> w.k.threads[t].retq != w.wq)
    && (forall t :: t in w.inside ==> InsideOk(w, t))
    && (forall t :: Waits(w, t) ==> t in w.inside)
    && (forall t, u :: Granted(w, t) && Granted(w, u) ==> t == u)
    && (w.holder.Some? ==> w.holder.value !in w.inside && forall t :: !Granted(w, t))
    && w.count == |w.inside| + (if w.holder.Some? then 1 else 0)
  }

  // ---------- what scheduler steps leave alone ----------

  /** Nothing a wait on w could see has changed, for the threads of x. */
  ghost predicate Keeps(s: State, s': State, w: Wq, x: set<Tid>)
  {
    && s.threads.Keys <= s'.threads.Keys
    && w in s.waitqs && w in s'.waitqs && s'.waitqs[w] == s.waitqs[w]
    && (forall t :: t in s.threads ==>
                      s'.threads[t].retq == s.threads[t].retq && s'.threads[t].idle == s.threads[t].idle)
    && (forall t :: t in s'.threads && t !in s.threads ==> s'.threads[t].retq != w && s'.threads[t].waitq != Some(w))
    && (forall t :: t in s.threads ==> (s'.threads[t].waitq == Some(w) <==> s.threads[t].waitq == Some(w)))
    && (forall t :: t in s.threads && t in x ==> SameWait(s.threads[t], s'.threads[t]))
  }

  ghost predicate SameWait(a: Thread, b: Thread)
  {
    && b.waitq == a.waitq && b.blockRet == a.blockRet && b.timed == a.timed
    && (a.state == Ready || a.state == Running ==> b.state == Ready || b.state == Running)
  }

  /** Only scheduling fields have changed. */
  ghost predicate Soft(s: State, s': State)
  {
    && s'.threads.Keys == s.threads.Keys && s'.waitqs == s.waitqs
    && forall t :: t in s.threads ==> SoftThread(s.threads[t], s'.threads[t])
  }

  ghost predicate SoftThread(a: Thread, b: Thread)
  {
    && b == a.(state := b.state, quantum := b.quantum, currCpu := b.currCpu, priority := b.priority)
    && (a.state == Ready || a.state == Running ==> b.state == Ready || b.state == Running)
  }

  lemma SwitchSoft(s: State, cpu: nat)
    requires Leaving(s, cpu)
    ensures Soft(s, Switch(s, cpu))
  {
    TopFacts(s, cpu);
    assert CpuOk(s, cpu);
    DispatchIs(Top(s, cpu).0, cpu, Top(s, cpu).1);
  }

  lemma StepBackSoft(s: State, cpu: nat, quantum: int, head: bool)
    requires Inv(s) && cpu < |s.current|
    ensures Soft(s, StepBack(s, cpu, quantum, head))
  {
    assert CpuOk(s, cpu) && ThreadOk(s, s.current[cpu]);
  }

  lemma SoftKeeps(s: State, s1: State, s2: State, w: Wq, x: set<Tid>)
    requires Keeps(s, s1, w, x) && Soft(s1, s2)
    ensures Keeps(s, s2, w, x)
  {
  }

  lemma SoftIsKeeps(s: State, s': State, w: Wq, x: set<Tid>)
    requires w in s.waitqs && Soft(s, s')
    ensures Keeps(s, s', w, x)
  {
  }

  /** Waking a thread that waits elsewhere. */
  lemma WakeIsKeeps(s: State, v: Wq, t: Tid, err: int, w: Wq, x: set<Tid>)
    requires t in s.threads && s.threads[t].waitq == Some(v) && v in s.waitqs && s.threads[t].priority < |s.runq|
    requires v != w && w in s.waitqs && t !in x
    ensures Keeps(s, Wake(s, t, err), w, x)
  {
    WakeShape(s, v, t, err);
  }

  lemma WakeAllIsKeeps(s: State, v: Wq, err: int, w: Wq, x: set<Tid>)
    requires Base(s) && v in s.waitqs && v != w && w in s.waitqs
    requires forall t :: t in x && t in s.threads ==> s.threads[t].waitq != Some(v)
    ensures Keeps(s, WakeFromTail(s, v, err), w, x)
  {
    hide Base, WakeFromTail;
    WakeFromTailKeeps(s, v, err);
    var s' := WakeFromTail(s, v, err);
    forall t | t in s.threads ensures s'.threads[t] == Woken(s.threads[t], v, err) {
    }
  }

  // ---------- the steps ----------

  /** May the scheduler take step op while the mutex is in use?  Its wait queue is its own, and a thread
      inside mutex_acquire_timeout does nothing but return from it (or be preempted). */
  ghost predicate OtherEnabled(w: World, op: Op)
  {
    && Enabled(w.k, op)
    && match op
       case BlockOn(cpu, v, _) => v != w.wq && w.k.current[cpu] !in w.inside
       case WakeOne(_, v, _, _) => v != w.wq
       case WakeAll(_, v, _, _) => v != w.wq
       case WaitReturns(cpu) => w.k.current[cpu] !in w.inside
       case Sleep(cpu) => w.k.current[cpu] !in w.inside
       case Exit(cpu) => w.k.current[cpu] !in w.inside
       case _ => true
  }

  ghost predicate StepEnabled(w: World, st: Step)
  {
    match st
    case Acquire(cpu, _) => BusyCpu(w.k, cpu) && w.k.current[cpu] !in w.inside && w.holder != Some(w.k.current[cpu])
    case Return(cpu) => BusyCpu(w.k, cpu) && w.k.current[cpu] in w.inside
    case Release(cpu) => BusyCpu(w.k, cpu) && w.holder == Some(w.k.current[cpu])
    case Other(op) => OtherEnabled(w, op)
  }

  ghost function DoAcquire(w: World, cpu: nat, timeout: nat): World
    requires MutexInv(w) && BusyCpu(w.k, cpu)
  {
    if w.count + 1 > 1 then
      if timeout == 0 then w
      else World(DoBlock(w.k, cpu, w.wq, timeout != INFINITE_TIME), w.wq, w.count + 1, w.holder,
                 w.inside + {w.k.current[cpu]})
    else w.(count := w.count + 1, holder := Some(w.k.current[cpu]))
  }

  ghost function DoReturn(w: World, cpu: nat): World
    requires BusyCpu(w.k, cpu)
  {
    var t := w.k.current[cpu];
    var ret := w.k.threads[t].blockRet;
    var w1 := w.(k := DoWaitReturns(w.k, cpu), inside := w.inside - {t});
    if ret < NO_ERROR then w1.(count := if ret == ERR_TIMED_OUT then w.count - 1 else w.count)
    else w1.(holder := Some(t))
  }

  ghost function DoRelease(w: World, cpu: nat): World
    requires MutexInv(w) && BusyCpu(w.k, cpu)
  {
    var w1 := w.(holder := None, count := w.count - 1);
    if w1.count >= 1 then w1.(k := DoWakeOne(w.k, cpu, w.wq, true, NO_ERROR)) else w1
  }

  ghost function StepTo(w: World, st: Step): World
    requires MutexInv(w) && StepEnabled(w, st)
  {
    match st
    case Acquire(cpu, timeout) => DoAcquire(w, cpu, timeout)
    case Return(cpu) => DoReturn(w, cpu)
    case Release(cpu) => DoRelease(w, cpu)
    case Other(op) => w.(k := Next(w.k, op))
  }

  // ---------- scheduler steps that do not concern the mutex ----------

  lemma OtherStepBack(w: World, cpu: nat, quantum: int, head: bool)
    requires MutexInv(w) && OnCpu(w.k, cpu)
    ensures Leaving(StepBack(w.k, cpu, quantum, head), cpu)
    ensures Keeps(w.k, Switch(StepBack(w.k, cpu, quantum, head), cpu), w.wq, w.inside)
  {
    StepBackLeaves(w.k, cpu, quantum, head);
    StepBackSoft(w.k, cpu, quantum, head);
    SoftSwitch(w.k, StepBack(w.k, cpu, quantum, head), cpu, w.wq, w.inside);
  }

  lemma OtherSetPriority(w: World, cpu: nat, priority: int)
    requires MutexInv(w) && BusyCpu(w.k, cpu)
    ensures Keeps(w.k, DoSetPriority(w.k, cpu, priority), w.wq, w.inside)
  {
    hide ReadyQueued, Sched.Waiting, Cpus;
    var s, t := w.k, w.k.current[cpu];
    SetPriorityLeaves(s, cpu, priority);
    SoftSwitch(s, MakeReady(s, t, s.threads[t].(state := Ready, priority := Clamp(priority)), true), cpu, w.wq,
               w.inside);
  }

  lemma OtherSleep(w: World, cpu: nat)
    requires MutexInv(w) && BusyCpu(w.k, cpu) && w.k.current[cpu] !in w.inside
    ensures Keeps(w.k, DoSleep(w.k, cpu), w.wq, w.inside)
  {
    hide Bitmap, ReadyQueued, Sched.Waiting, Cpus, Keeps, Switch;
    var s, t := w.k, w.k.current[cpu];
    GoneLeaves(s, cpu, Sleeping);
    assert ThreadOk(s, t) && s.threads[t].state == Running;
    GoneIsKeeps(s, t, Sleeping, w.wq, w.inside);
    KeepsSwitch(s, SetThread(s, t, s.threads[t].(state := Sleeping)), cpu, w.wq, w.inside);
  }

  lemma OtherBlock(w: World, cpu: nat, v: Wq, timed: bool)
    requires MutexInv(w) && BusyCpu(w.k, cpu) && w.k.current[cpu] !in w.inside && v in w.k.waitqs && v != w.wq
    ensures Keeps(w.k, DoBlock(w.k, cpu, v, timed), w.wq, w.inside)
  {
    hide Bitmap, ReadyQueued, Sched.Waiting, Cpus, Keeps, Switch, Block;
    var s, t := w.k, w.k.current[cpu];
    BlockLeaves(s, cpu, v, timed);
    assert ThreadOk(s, t) && s.threads[t].state == Running;
    BlockIsKeeps(s, t, v, timed, w.wq, w.inside);
    KeepsSwitch(s, Block(s, t, v, timed), cpu, w.wq, w.inside);
  }

  lemma GoneIsKeeps(s: State, t: Tid, state: RunState, w: Wq, x: set<Tid>)
    requires t in s.threads && w in s.waitqs && t !in x
    ensures Keeps(s, SetThread(s, t, s.threads[t].(state := state)), w, x)
  {
  }

  /** Blocking elsewhere. */
  lemma BlockIsKeeps(s: State, t: Tid, v: Wq, timed: bool, w: Wq, x: set<Tid>)
    requires t in s.threads && v in s.waitqs && v != w && w in s.waitqs && t !in x && s.threads[t].waitq != Some(w)
    ensures Keeps(s, Block(s, t, v, timed), w, x)
  {
  }

  lemma SoftSwitch(s: State, s1: State, cpu: nat, w: Wq, x: set<Tid>)
    requires w in s.waitqs && Soft(s, s1) && Leaving(s1, cpu)
    ensures Keeps(s, Switch(s1, cpu), w, x)
  {
    SoftIsKeeps(s, s1, w, x);
    KeepsSwitch(s, s1, cpu, w, x);
  }

  lemma KeepsSwitch(s: State, s1: State, cpu: nat, w: Wq, x: set<Tid>)
    requires Keeps(s, s1, w, x) && Leaving(s1, cpu)
    ensures Keeps(s, Switch(s1, cpu), w, x)
  {
    SwitchSoft(s1, cpu);
    SoftKeeps(s, s1, Switch(s1, cpu), w, x);
  }

  /** Leaving for good changes nothing the mutex looks at. */
  lemma DeathKeeps(w: World, cpu: nat)
    requires MutexInv(w) && OtherEnabled(w, Exit(cpu))
    ensures cpu < |w.k.current| && w.k.current[cpu] in w.k.threads
    ensures var t := w.k.current[cpu];
            var s1 := SetThread(w.k, t, w.k.threads[t].(state := Death));
            Leaving(s1, cpu) && Keeps(w.k, s1, w.wq, w.inside)
  {
    hide Leaving, Base;
    GoneLeaves(w.k, cpu, Death);
  }

  lemma OtherExit(w: World, cpu: nat)
    requires MutexInv(w) && OtherEnabled(w, Exit(cpu))
    ensures Keeps(w.k, DoExit(w.k, cpu), w.wq, w.inside)
  {
    var s := w.k;
    DeathKeeps(w, cpu);
    var t := s.current[cpu];
    var s1 := SetThread(s, t, s.threads[t].(state := Death));
    if s.threads[t].detached {
      KeepsSwitch(s, s1, cpu, w.wq, w.inside);
    } else {
      ExitWakes(w, cpu, s1, s.threads[t].retq);
    }
  }

  /** The waiters for a thread's end are woken; none of them is inside the mutex. */
  lemma ExitWakes(w: World, cpu: nat, s1: State, v: Wq)
    requires MutexInv(w) && Leaving(s1, cpu) && Keeps(w.k, s1, w.wq, w.inside) && v in s1.waitqs && v != w.wq
    ensures Leaving(WakeFromTail(s1, v, NO_ERROR), cpu)
    ensures Keeps(w.k, Switch(WakeFromTail(s1, v, NO_ERROR), cpu), w.wq, w.inside)
  {
    WakeFromTailLeaves(s1, cpu, v, NO_ERROR);
    WakeAllElsewhere(w, s1, v, NO_ERROR);
    KeepsSwitch(w.k, WakeFromTail(s1, v, NO_ERROR), cpu, w.wq, w.inside);
  }

  lemma KeepsTrans(s: State, s1: State, s2: State, w: Wq, x: set<Tid>)
    requires Keeps(s, s1, w, x) && Keeps(s1, s2, w, x)
    ensures Keeps(s, s2, w, x)
  {
    hide SameWait;
    forall t | t in s.threads && t in x
      ensures SameWait(s.threads[t], s2.threads[t])
    {
      SameTwice(s.threads[t], s1.threads[t], s2.threads[t]);
    }
  }

  lemma SameTwice(a: Thread, b: Thread, c: Thread)
    requires SameWait(a, b) && SameWait(b, c)
    ensures SameWait(a, c)
  {
  }

  /** No thread inside waits on another queue. */
  lemma NotElsewhere(w: World, s: State, v: Wq, t: Tid)
    requires MutexInv(w) && Keeps(w.k, s, w.wq, w.inside) && v != w.wq
    requires t in s.threads && s.threads[t].waitq == Some(v)
    ensures t !in w.inside
  {
  }

  lemma WakeOneElsewhere(w: World, s: State, v: Wq, err: int)
    requires MutexInv(w) && Keeps(w.k, s, w.wq, w.inside) && v != w.wq
    requires Base(s) && v in s.waitqs && s.waitqs[v].list != []
    ensures var t := s.waitqs[v].list[0];
      t in s.threads && s.threads[t].waitq == Some(v) && s.threads[t].priority < |s.runq|
      && Keeps(w.k, Wake(s, t, err), w.wq, w.inside)
  {
    var t := s.waitqs[v].list[0];
    Waiter(s, v, t);
    NotElsewhere(w, s, v, t);
    WakeIsKeeps(s, v, t, err, w.wq, w.inside);
    KeepsTrans(w.k, s, Wake(s, t, err), w.wq, w.inside);
  }

  lemma WakeAllElsewhere(w: World, s: State, v: Wq, err: int)
    requires MutexInv(w) && Keeps(w.k, s, w.wq, w.inside) && v != w.wq
    requires Base(s) && v in s.waitqs
    ensures Keeps(w.k, WakeFromTail(s, v, err), w.wq, w.inside)
  {
    forall u | u in w.inside && u in s.threads ensures s.threads[u].waitq != Some(v) {
      if s.threads[u].waitq == Some(v) {
        NotElsewhere(w, s, v, u);
      }
    }
    WakeAllIsKeeps(s, v, err, w.wq, w.inside);
    KeepsTrans(w.k, s, WakeFromTail(s, v, err), w.wq, w.inside);
  }

  lemma OtherWakeOne(w: World, cpu: nat, v: Wq, resched: bool, err: int)
    requires MutexInv(w) && OtherEnabled(w, WakeOne(cpu, v, resched, err))
    ensures Keeps(w.k, DoWakeOne(w.k, cpu, v, resched, err), w.wq, w.inside)
  {
    var s := w.k;
    SoftIsKeeps(s, s, w.wq, w.inside);
    if s.waitqs[v].list != [] {
      var t := s.waitqs[v].list[0];
      if resched {
        var q := s.threads[s.current[cpu]].quantum;
        StepBackLeaves(s, cpu, q, true);
        StepBackSoft(s, cpu, q, true);
        var s1 := StepBack(s, cpu, q, true);
        SoftIsKeeps(s, s1, w.wq, w.inside);
        WakeOneElsewhere(w, s1, v, err);
        WakeLeaves(s1, cpu, v, t, err);
        KeepsSwitch(s, Wake(s1, t, err), cpu, w.wq, w.inside);
      } else {
        WakeOneElsewhere(w, s, v, err);
      }
    }
  }

  lemma OtherWakeAll(w: World, cpu: nat, v: Wq, resched: bool, err: int)
    requires MutexInv(w) && OtherEnabled(w, WakeAll(cpu, v, resched, err))
    ensures Keeps(w.k, DoWakeAll(w.k, cpu, v, resched, err), w.wq, w.inside)
  {
    var s := w.k;
    SoftIsKeeps(s, s, w.wq, w.inside);
    if s.waitqs[v].list != [] {
      if resched {
        var q := s.threads[s.current[cpu]].quantum;
        StepBackLeaves(s, cpu, q, true);
        StepBackSoft(s, cpu, q, true);
        var s1 := StepBack(s, cpu, q, true);
        SoftIsKeeps(s, s1, w.wq, w.inside);
        WakeAllElsewhere(w, s1, v, err);
        WakeFromTailLeaves(s1, cpu, v, err);
        KeepsSwitch(s, WakeFromTail(s1, v, err), cpu, w.wq, w.inside);
      } else {
        WakeAllElsewhere(w, s, v, err);
      }
    }
  }

  lemma OtherReady(w: World, t: Tid)
    requires MutexInv(w) && t in w.k.threads
    ensures Keeps(w.k, DoReady(w.k, t), w.wq, w.inside)
  {
    assert ThreadOk(w.k, t);
    SoftIsKeeps(w.k, DoReady(w.k, t), w.wq, w.inside);
  }

  lemma OtherTick(w: World, cpu: nat)
    requires MutexInv(w) && OnCpu(w.k, cpu)
    ensures Keeps(w.k, DoTick(w.k, cpu), w.wq, w.inside)
  {
    hide Base;
  }

  lemma OtherReturn(w: World, cpu: nat)
    requires MutexInv(w) && OnCpu(w.k, cpu) && w.k.current[cpu] !in w.inside
    ensures Keeps(w.k, DoWaitReturns(w.k, cpu), w.wq, w.inside)
  {
    hide Base;
  }

  lemma OtherTimeout(w: World, t: Tid)
    requires MutexInv(w) && t in w.k.threads && !Waits(w, t)
    ensures Keeps(w.k, DoTimesOut(w.k, t), w.wq, w.inside)
  {
    SoftIsKeeps(w.k, w.k, w.wq, w.inside);
    assert ThreadOk(w.k, t);
    if w.k.threads[t].state == Blocked {
      var v := w.k.threads[t].waitq.value;
      NotElsewhere(w, w.k, v, t);
      WakeIsKeeps(w.k, v, t, ERR_TIMED_OUT, w.wq, w.inside);
    }
  }

  lemma KeepsSame(w: World)
    requires MutexInv(w)
    ensures Keeps(w.k, w.k, w.wq, w.inside)
  {
    SoftIsKeeps(w.k, w.k, w.wq, w.inside);
  }

  lemma OtherNew(w: World, op: Op)
    requires MutexInv(w) && OtherEnabled(w, op) && (op.Create? || op.NewQueue?)
    ensures Keeps(w.k, Next(w.k, op), w.wq, w.inside)
  {
    hide Base;
  }

  /** A step that is none of the mutex's business, a timeout on its queue apart. */
  lemma OtherIsKeeps(w: World, op: Op)
    requires MutexInv(w) && OtherEnabled(w, op) && (op.TimesOut? ==> !Waits(w, op.t))
    ensures Keeps(w.k, Next(w.k, op), w.wq, w.inside)
  {
    hide MutexInv, Inv, Keeps, Switch, StepBack, Wake, WakeFromTail, Leaving;
    match op
    case Exit(cpu) => OtherExit(w, cpu);
    case WakeOne(cpu, v, resched, err) => OtherWakeOne(w, cpu, v, resched, err);
    case WakeAll(cpu, v, resched, err) => OtherWakeAll(w, cpu, v, resched, err);
    case TimesOut(t) => OtherTimeout(w, t);
    case Create(_, _, _, _, _) => OtherNew(w, op);
    case NewQueue(_) => OtherNew(w, op);
    case Resume(t) => OtherReady(w, t); KeepsSame(w);
    case SleepEnds(t) => OtherReady(w, t);
    case Tick(cpu) => OtherTick(w, cpu);
    case WaitReturns(cpu) => OtherReturn(w, cpu);
    case Yield(cpu) => OtherStepBack(w, cpu, 0, false);
    case Preempt(cpu) =>
      var q := w.k.threads[w.k.current[cpu]].quantum;
      OtherStepBack(w, cpu, q, q > 0);
    case SetPriority(cpu, priority) => OtherSetPriority(w, cpu, priority);
    case Sleep(cpu) => OtherSleep(w, cpu);
    case BlockOn(cpu, v, timed) => OtherBlock(w, cpu, v, timed);
  }

  // ---------- every step keeps the mutex invariant ----------

  /** A state of affairs the wait on w cannot tell from the old one. */
  lemma KeepsInv(w: World, k': State)
    requires MutexInv(w) && Inv(k') && Keeps(w.k, k', w.wq, w.inside)
    ensures var w' := w.(k := k'); MutexInv(w') && SameRoles(w, w')
  {
    var w' := w.(k := k');
    forall t | t in w.inside
      ensures InsideOk(w', t) && (Waits(w', t) <==> Waits(w, t))
    {
      assert InsideOk(w, t);
      assert SameWait(w.k.threads[t], k'.threads[t]);
    }
    forall t ensures Waits(w', t) <==> Waits(w, t) {
    }
    forall t ensures (Granted(w', t) <==> Granted(w, t)) && (Expired(w', t) <==> Expired(w, t)) {
      if t in w.inside {
        assert InsideOk(w, t) && SameWait(w.k.threads[t], k'.threads[t]);
      }
    }
  }

  ghost predicate SameRoles(w: World, w': World)
  {
    forall t :: && (Waits(w', t) <==> Waits(w, t)) && (Granted(w', t) <==> Granted(w, t))
                && (Expired(w', t) <==> Expired(w, t))
  }

  /** A release wakes one waiter, which is then the granted one; a timeout wakes one, which is then an
      expired one; nobody else changes role. */
  lemma WokenInv(w: World, k': State, t: Tid, err: int)
    requires MutexInv(w) && Inv(k') && Waits(w, t) && OneWoken(w.k, k', t, err)
    requires err == NO_ERROR || err == ERR_TIMED_OUT
    requires err == NO_ERROR ==> w.holder == None && forall u :: !Granted(w, u)
    ensures var w' := w.(k := k');
      && MutexInv(w')
      && (forall u :: Waits(w', u) <==> Waits(w, u) && u != t)
      && (forall u :: Granted(w', u) <==> Granted(w, u) || (u == t && err == NO_ERROR))
      && (forall u :: Expired(w', u) <==> Expired(w, u) || (u == t && err == ERR_TIMED_OUT))
  {
    hide Inv;
    var w' := w.(k := k');
    forall u
      ensures Waits(w', u) <==> Waits(w, u) && u != t
      ensures Granted(w', u) <==> Granted(w, u) || (u == t && err == NO_ERROR)
      ensures Expired(w', u) <==> Expired(w, u) || (u == t && err == ERR_TIMED_OUT)
    {
      if u in w.k.threads && u != t {
        assert SameWait(w.k.threads[u], k'.threads[u]);
      }
    }
    forall u | u in w.inside ensures InsideOk(w', u) {
      assert InsideOk(w, u);
      if u != t {
        assert SameWait(w.k.threads[u], k'.threads[u]);
      }
    }
  }

  /** A thread that waits for the mutex is blocked on its queue. */
  lemma WaiterIs(w: World, t: Tid)
    requires MutexInv(w) && Waits(w, t)
    ensures Inv(w.k) && w.wq in w.k.waitqs && t in w.k.waitqs[w.wq].list
    ensures ThreadOk(w.k, t) && w.k.threads[t].state == Blocked
  {
    assert ThreadOk(w.k, t);
  }

  lemma TimeoutKeeps(w: World, t: Tid)
    requires MutexInv(w) && Waits(w, t)
    ensures w.k.threads[t].state == Blocked
    ensures var w' := w.(k := DoTimesOut(w.k, t));
      && MutexInv(w')
      && (forall u :: Waits(w', u) <==> Waits(w, u) && u != t)
      && (forall u :: Granted(w', u) <==> Granted(w, u))
      && (forall u :: Expired(w', u) <==> Expired(w, u) || u == t)
  {
    hide MutexInv, Base, Leaving, Wake, Granted, Expired;
    WaiterIs(w, t);
    WakeLeaves(w.k, 0, w.wq, t, ERR_TIMED_OUT);
    WakeShape(w.k, w.wq, t, ERR_TIMED_OUT);
    WokenInv(w, DoTimesOut(w.k, t), t, ERR_TIMED_OUT);
  }

  lemma AcquireKeeps(w: World, cpu: nat, timeout: nat)
    requires MutexInv(w) && StepEnabled(w, Acquire(cpu, timeout))
    ensures MutexInv(DoAcquire(w, cpu, timeout))
  {
    if w.count > 0 && timeout != 0 {
      BlockingKeeps(w, cpu, timeout != INFINITE_TIME);
    } else if w.count == 0 {
      assert w.inside == {};
    }
  }

  /** What the world looks like once the current thread of a cpu has blocked on the mutex. */
  lemma BlockingKeeps(w: World, cpu: nat, timed: bool)
    requires MutexInv(w) && BusyCpu(w.k, cpu) && w.k.current[cpu] !in w.inside && w.holder != Some(w.k.current[cpu])
    ensures var t := w.k.current[cpu];
      var w' := World(DoBlock(w.k, cpu, w.wq, timed), w.wq, w.count + 1, w.holder, w.inside + {t});
      && MutexInv(w')
      && (forall u :: Waits(w', u) <==> Waits(w, u) || u == t)
      && (forall u :: Granted(w', u) <==> Granted(w, u)) && (forall u :: Expired(w', u) <==> Expired(w, u))
      && t in w'.k.threads && w'.k.threads[t].timed == timed
      && (forall u :: u in w.inside ==> u in w.k.threads && w'.k.threads[u].timed == w.k.threads[u].timed)
  {
    var s, t := w.k, w.k.current[cpu];
    BlockLeaves(s, cpu, w.wq, timed);
    SwitchKeeps(Block(s, t, w.wq, timed), cpu);
    SwitchSoft(Block(s, t, w.wq, timed), cpu);
    var k' := DoBlock(s, cpu, w.wq, timed);
    var w' := World(k', w.wq, w.count + 1, w.holder, w.inside + {t});
    BlockedRoles(w, Block(s, t, w.wq, timed), k', t, timed);
  }

  lemma BlockedRoles(w: World, s1: State, k': State, t: Tid, timed: bool)
    requires MutexInv(w) && t in w.k.threads && t !in w.inside && w.holder != Some(t) && !w.k.threads[t].idle
    requires s1 == Block(w.k, t, w.wq, timed) && Soft(s1, k') && Inv(k')
    ensures var w' := World(k', w.wq, w.count + 1, w.holder, w.inside + {t});
      && MutexInv(w')
      && (forall u :: Waits(w', u) <==> Waits(w, u) || u == t)
      && (forall u :: Granted(w', u) <==> Granted(w, u)) && (forall u :: Expired(w', u) <==> Expired(w, u))
      && t in k'.threads && k'.threads[t].timed == timed
      && (forall u :: u in w.inside ==> u in w.k.threads && k'.threads[u].timed == w.k.threads[u].timed)
  {
    hide Inv, Soft, SoftThread;
    var w' := World(k', w.wq, w.count + 1, w.holder, w.inside + {t});
    SoftKeys(s1, k');
    forall u
      ensures Waits(w', u) <==> Waits(w, u) || u == t
      ensures Granted(w', u) <==> Granted(w, u)
      ensures Expired(w', u) <==> Expired(w, u)
    {
      BlockedRole(w, s1, k', t, timed, u);
    }
    forall u | u in w.k.threads
      ensures k'.threads[u].retq == w.k.threads[u].retq
      ensures k'.threads[u].timed == if u == t then timed else w.k.threads[u].timed
    {
      SoftAt(s1, k', u);
      SoftSame(s1.threads[u], k'.threads[u]);
    }
    forall u | u in w'.inside ensures InsideOk(w', u) {
      BlockedInside(w, s1, k', t, timed, u);
    }
    forall u | u in w.inside ensures u in w.k.threads {
      assert InsideOk(w, u);
    }
  }

  lemma BlockedInside(w: World, s1: State, k': State, t: Tid, timed: bool, u: Tid)
    requires t in w.k.threads && w.wq in w.k.waitqs && !w.k.threads[t].idle
    requires s1 == Block(w.k, t, w.wq, timed) && Soft(s1, k') && (u == t || InsideOk(w, u))
    ensures InsideOk(World(k', w.wq, w.count + 1, w.holder, w.inside + {t}), u)
  {
    SoftAt(s1, k', u);
    SoftSame(s1.threads[u], k'.threads[u]);
  }

  lemma BlockedRole(w: World, s1: State, k': State, t: Tid, timed: bool, u: Tid)
    requires t in w.k.threads && t !in w.inside && w.wq in w.k.waitqs
    requires s1 == Block(w.k, t, w.wq, timed) && Soft(s1, k')
    ensures var w' := World(k', w.wq, w.count + 1, w.holder, w.inside + {t});
            && (Waits(w', u) <==> Waits(w, u) || u == t)
            && (Granted(w', u) <==> Granted(w, u)) && (Expired(w', u) <==> Expired(w, u))
  {
    if u in w.k.threads {
      assert SoftThread(s1.threads[u], k'.threads[u]);
    }
  }

  lemma ReturnRoles(w: World, cpu: nat)
    requires BusyCpu(w.k, cpu) && w.k.current[cpu] in w.inside && !Waits(w, w.k.current[cpu])
    ensures var w', t := DoReturn(w, cpu), w.k.current[cpu];
      && (forall u :: Waits(w', u) <==> Waits(w, u))
      && (forall u :: Granted(w', u) <==> Granted(w, u) && u != t)
      && (forall u :: Expired(w', u) <==> Expired(w, u) && u != t)
      && (forall u :: u in w'.inside && InsideOk(w, u) ==> InsideOk(w', u))
  {
  }

  lemma ReturnKeeps(w: World, cpu: nat)
    requires MutexInv(w) && StepEnabled(w, Return(cpu))
    ensures var w', t := DoReturn(w, cpu), w.k.current[cpu];
      && MutexInv(w') && (forall u :: Waits(w', u) <==> Waits(w, u))
      && (forall u :: Granted(w', u) <==> Granted(w, u) && u != t)
      && (forall u :: Expired(w', u) <==> Expired(w, u) && u != t)
      && (Granted(w, t) <==> w'.holder == Some(t)) && (Expired(w, t) ==> w'.holder == w.holder)
  {
    hide Inv;
    Returner(w, cpu);
    ReturnRoles(w, cpu);
    WaitReturnsKeeps(w.k, cpu);
  }

  /** A thread that runs inside has been granted the mutex or has timed out. */
  lemma Returner(w: World, cpu: nat)
    requires MutexInv(w) && StepEnabled(w, Return(cpu))
    ensures var t := w.k.current[cpu]; !Waits(w, t) && (Granted(w, t) || Expired(w, t))
  {
    hide Bitmap, ReadyQueued, Sched.Waiting, Cpus;
    var t := w.k.current[cpu];
    assert InsideOk(w, t) && ThreadOk(w.k, t);
  }

  /** The wake of a release: the first waiter, and nobody else, gets the mutex. */
  lemma ReleaseWakes(w: World, cpu: nat, t: Tid)
    requires MutexInv(w) && BusyCpu(w.k, cpu) && w.holder == None && (forall u :: !Granted(w, u))
    requires w.k.waitqs[w.wq].list != [] && t == w.k.waitqs[w.wq].list[0]
    ensures var w' := w.(k := DoWakeOne(w.k, cpu, w.wq, true, NO_ERROR));
      && MutexInv(w') && Granted(w', t)
      && (forall u :: Waits(w', u) <==> Waits(w, u) && u != t)
      && (forall u :: Expired(w', u) <==> Expired(w, u))
  {
    WakeOneThreads(w.k, cpu, w.wq, t, NO_ERROR);
    WakingKeeps(w.k, WakeOne(cpu, w.wq, true, NO_ERROR));
    Waiter(w.k, w.wq, t);
    WokenInv(w, DoWakeOne(w.k, cpu, w.wq, true, NO_ERROR), t, NO_ERROR);
  }

  /** What wait_queue_wake_one with a reschedule does to the threads. */
  lemma WakeOneThreads(s: State, cpu: nat, w: Wq, t: Tid, err: int)
    requires Inv(s) && OnCpu(s, cpu) && w in s.waitqs && s.waitqs[w].list != [] && t == s.waitqs[w].list[0]
    ensures OneWoken(s, DoWakeOne(s, cpu, w, true, err), t, err)
  {
    hide Base, Wake, StepBack, Switch, SameRunning;
    var q := s.threads[s.current[cpu]].quantum;
    StepBackLeaves(s, cpu, q, true);
    StepBackSoft(s, cpu, q, true);
    var s1 := StepBack(s, cpu, q, true);
    WakeLeaves(s1, cpu, w, t, err);
    WakeShape(s1, w, t, err);
    var s2 := Wake(s1, t, err);
    SwitchSoft(s2, cpu);
    WokenThreads(s, s1, s2, Switch(s2, cpu), t, err);
  }

  /** Thread t is awake with return code err; the others wait, or do not, as before. */
  ghost predicate OneWoken(s: State, k': State, t: Tid, err: int)
  {
    && k'.threads.Keys == s.threads.Keys && k'.waitqs.Keys == s.waitqs.Keys && t in s.threads
    && (forall u :: u in s.threads ==>
                      k'.threads[u].retq == s.threads[u].retq && k'.threads[u].idle == s.threads[u].idle)
    && (forall u :: u in s.threads && u != t ==> SameWait(s.threads[u], k'.threads[u]))
    && k'.threads[t].waitq == None && k'.threads[t].blockRet == err && k'.threads[t].timed == s.threads[t].timed
    && (k'.threads[t].state == Ready || k'.threads[t].state == Running)
  }

  lemma WokenThreads(s: State, s1: State, s2: State, k': State, t: Tid, err: int)
    requires Soft(s, s1) && Soft(s2, k') && t in s1.threads && s2.waitqs.Keys == s.waitqs.Keys
    requires s2.threads == s1.threads[t := s1.threads[t].(state := Ready, waitq := None, blockRet := err)]
    ensures OneWoken(s, k', t, err)
  {
    hide Soft, SoftThread, SameWait;
    SoftKeys(s, s1);
    SoftKeys(s2, k');
    forall u | u in s.threads
      ensures k'.threads[u].retq == s.threads[u].retq && k'.threads[u].idle == s.threads[u].idle
      ensures u != t ==> SameWait(s.threads[u], k'.threads[u])
    {
      SoftAt(s, s1, u);
      SoftAt(s2, k', u);
      if u != t {
        SoftTwice(s.threads[u], s1.threads[u], k'.threads[u]);
      } else {
        SoftSame(s.threads[u], s1.threads[u]);
        SoftSame(s2.threads[u], k'.threads[u]);
      }
    }
    SoftAt(s, s1, t);
    SoftAt(s2, k', t);
    SoftSame(s.threads[t], s1.threads[t]);
    SoftSame(s2.threads[t], k'.threads[t]);
  }

  lemma SoftKeys(s: State, s': State)
    requires Soft(s, s')
    ensures s'.threads.Keys == s.threads.Keys && s'.waitqs == s.waitqs
  {
  }

  lemma SoftAt(s: State, s': State, t: Tid)
    requires Soft(s, s') && t in s.threads
    ensures t in s'.threads && SoftThread(s.threads[t], s'.threads[t])
  {
  }

  lemma SoftSame(a: Thread, b: Thread)
    requires SoftThread(a, b)
    ensures b.retq == a.retq && b.idle == a.idle && b.timed == a.timed && b.waitq == a.waitq && b.blockRet == a.blockRet
    ensures a.state == Ready || a.state == Running ==> b.state == Ready || b.state == Running
  {
  }

  lemma SoftTwice(a: Thread, b: Thread, c: Thread)
    requires SoftThread(a, b) && SoftThread(b, c)
    ensures SameWait(a, c) && c.retq == a.retq && c.idle == a.idle
  {
  }

  lemma ReleaseKeeps(w: World, cpu: nat)
    requires MutexInv(w) && StepEnabled(w, Release(cpu))
    ensures MutexInv(DoRelease(w, cpu))
  {
    var w1 := w.(holder := None, count := w.count - 1);
    Unheld(w, w1);
    if w1.count >= 1 && w.k.waitqs[w.wq].list != [] {
      ReleaseWakes(w1, cpu, w.k.waitqs[w.wq].list[0]);
    }
  }

  lemma ReleaseFacts(w: World, cpu: nat)
    requires MutexInv(w) && StepEnabled(w, Release(cpu))
    ensures Inv(w.k) && w.wq in w.k.waitqs
  {
  }

  /** A release grants the mutex to the first waiter, and to nobody when nobody waits. */
  lemma ReleaseGrants(w: World, cpu: nat)
    requires MutexInv(w) && StepEnabled(w, Release(cpu))
    ensures w.wq in w.k.waitqs
    ensures w.k.waitqs[w.wq].list != [] ==> Granted(DoRelease(w, cpu), w.k.waitqs[w.wq].list[0])
    ensures w.k.waitqs[w.wq].list == [] ==>
              DoRelease(w, cpu).k == w.k && forall t :: !Granted(DoRelease(w, cpu), t)
  {
    var w1, q := w.(holder := None, count := w.count - 1), w.k.waitqs[w.wq].list;
    Unheld(w, w1);
    if q != [] {
      assert q[0] in q && Waits(w, q[0]) && q[0] in w.inside;
      assert w.inside != {};
      ReleaseWakes(w1, cpu, q[0]);
    } else {
      forall t
        ensures !Granted(DoRelease(w, cpu), t)
      {
        assert !Granted(w1, t);
      }
    }
  }

  /** Giving up the holder alone. */
  lemma Unheld(w: World, w1: World)
    requires MutexInv(w) && w.holder.Some? && w1 == w.(holder := None, count := w.count - 1)
    ensures MutexInv(w1) && SameRoles(w, w1) && (forall u :: !Granted(w1, u))
  {
    forall t | t in w1.inside ensures InsideOk(w1, t) {
      assert InsideOk(w, t);
    }
    forall t ensures Waits(w1, t) <==> Waits(w, t) {
    }
    forall t ensures (Granted(w1, t) <==> Granted(w, t)) && (Expired(w1, t) <==> Expired(w, t)) {
    }
  }

  /** Every step, of the mutex or of anything else in the kernel, keeps the invariant: in particular at
      most one thread holds the mutex or has been granted it, and the count is the number of those, the
      waiting and the expired. */
  lemma StepKeeps(w: World, st: Step)
    requires MutexInv(w) && StepEnabled(w, st)
    ensures MutexInv(StepTo(w, st))
  {
    match st
    case Acquire(cpu, timeout) => AcquireKeeps(w, cpu, timeout);
    case Return(cpu) => ReturnKeeps(w, cpu);
    case Release(cpu) => ReleaseKeeps(w, cpu);
    case Other(op) =>
      if op.TimesOut? && Waits(w, op.t) {
        TimeoutKeeps(w, op.t);
      } else {
        OtherIsKeeps(w, op);
        NextKeeps(w.k, op);
        KeepsInv(w, Next(w.k, op));
      }
  }

  ghost predicate Takes(w: World, st: Step, w': World)
  {
    MutexInv(w) ==> StepEnabled(w, st) && w' == StepTo(w, st)
  }

  ghost predicate IsRun(worlds: seq<World>, steps: seq<Step>)
  {
    |worlds| == |steps| + 1 && forall k :: 0 <= k < |steps| ==> Takes(worlds[k], steps[k], worlds[k + 1])
  }

  /** Over every run. */
  lemma {:induction false} RunKeeps(worlds: seq<World>, steps: seq<Step>, k: nat)
    requires IsRun(worlds, steps) && k < |worlds| && MutexInv(worlds[0])
    ensures MutexInv(worlds[k])
  {
    if k > 0 {
      RunKeeps(worlds, steps, k - 1);
      assert Takes(worlds[k - 1], steps[k - 1], worlds[k]);
      StepKeeps(worlds[k - 1], steps[k - 1]);
    }
  }

  /** Mutual exclusion, spelled out. */
  lemma Exclusive(w: World, t: Tid, u: Tid)
    requires MutexInv(w)
    requires (w.holder == Some(t) || Granted(w, t)) && (w.holder == Some(u) || Granted(w, u))
    ensures t == u
  {
  }

  /** A mutex just initialised. */
  lemma InitOk(k: State, wq: Wq)
    requires Inv(k) && wq in k.waitqs && k.waitqs[wq].list == []
             && (forall t :: t in k.threads ==> k.threads[t].retq != wq)
    ensures MutexInv(World(k, wq, 0, None, {}))
  {
    var w := World(k, wq, 0, None, {});
    forall t ensures !Waits(w, t) {
      assert t !in k.waitqs[wq].list;
    }
  }

  // ---------- the count, by role ----------

  ghost function Waiting(w: World): set<Tid>
  {
    set t | t in w.inside && Waits(w, t)
  }

  ghost function Expiring(w: World): set<Tid>
  {
    set t | t in w.inside && Expired(w, t)
  }

  ghost function Granting(w: World): set<Tid>
  {
    set t | t in w.inside && Granted(w, t)
  }

  /** Every thread inside has exactly one role. */
  lemma Roles(w: World)
    requires forall t :: t in w.inside ==> InsideOk(w, t)
    ensures w.inside == Granting(w) + Waiting(w) + Expiring(w)
    ensures Granting(w) !! Waiting(w) && (Granting(w) + Waiting(w)) !! Expiring(w)
  {
    forall t | t in w.inside
      ensures t in Granting(w) || t in Waiting(w) || t in Expiring(w)
    {
      assert InsideOk(w, t);
    }
  }

  lemma GrantSize(w: World)
    requires forall t, u :: Granted(w, t) && Granted(w, u) ==> t == u
    ensures |Granting(w)| == if exists t :: Granted(w, t) then 1 else 0
  {
    if exists t :: Granted(w, t) {
      var t: Tid :| Granted(w, t);
      assert Granting(w) == {t};
    } else {
      assert Granting(w) == {};
    }
  }

  lemma WaitingSize(w: World)
    requires Sched.Waiting(w.k) && w.wq in w.k.waitqs && forall t :: Waits(w, t) ==> t in w.inside
    ensures |Waiting(w)| == |w.k.waitqs[w.wq].list|
  {
    forall t ensures t in Waiting(w) <==> t in w.k.waitqs[w.wq].list {
      assert Waits(w, t) <==> t in w.k.waitqs[w.wq].list;
    }
    ListSize(w.k.waitqs[w.wq].list, Waiting(w));
  }

  /** The count is one for the owner, if any, plus the length of the queue, plus the expired. */
  lemma CountIs(w: World)
    requires MutexInv(w)
    ensures w.count == (if Owned(w) then 1 else 0) + |w.k.waitqs[w.wq].list| + |Expiring(w)|
  {
    Roles(w);
    GrantSize(w);
    WaitingSize(w);
  }

  lemma {:induction false} ListSize(q: seq<Tid>, x: set<Tid>)
    requires NoDup(q) && forall t :: t in x <==> t in q
    ensures |x| == |q|
  {
    if q == [] {
      assert x == {};
    } else {
      assert q == [q[0]] + q[1..];
      ListSize(q[1..], x - {q[0]});
    }
  }

  // ---------- is there always someone to wake the queue? ----------

  ghost predicate Served(w: World)
  {
    (exists t :: Waits(w, t)) ==> Owned(w)
  }

  /** A blocking acquire that finds the count taken by expired waiters only. */
  ghost predicate JoinsNobody(w: World, st: Step)
  {
    st.Acquire? && st.timeout != 0 && w.count > 0 && !Owned(w)
  }

  lemma SameRolesServed(w: World, w': World)
    requires SameRoles(w, w') && w'.holder == w.holder
    ensures Owned(w') <==> Owned(w)
    ensures Served(w') <==> Served(w)
  {
    if exists t :: Granted(w, t) {
      var t :| Granted(w, t);
      assert Granted(w', t);
    }
    if exists t :: Waits(w, t) {
      var t :| Waits(w, t);
      assert Waits(w', t);
    }
  }

  lemma AcquireServed(w: World, cpu: nat, timeout: nat)
    requires MutexInv(w) && StepEnabled(w, Acquire(cpu, timeout)) && Served(w)
    ensures Served(DoAcquire(w, cpu, timeout)) <==> !JoinsNobody(w, Acquire(cpu, timeout))
  {
    hide Inv, DoBlock;
    if w.count > 0 && timeout != 0 {
      BlockingKeeps(w, cpu, timeout != INFINITE_TIME);
      var w' := DoAcquire(w, cpu, timeout);
      assert Waits(w', w.k.current[cpu]);
      if Owned(w) && w.holder.None? {
        var t :| Granted(w, t);
        assert Granted(w', t);
      }
    }
  }

  lemma TimeoutServed(w: World, t: Tid)
    requires MutexInv(w) && Waits(w, t) && Served(w)
    ensures Served(w.(k := DoTimesOut(w.k, t)))
  {
    TimeoutKeeps(w, t);
    if Owned(w) && w.holder.None? {
      var g :| Granted(w, g);
      assert Granted(w.(k := DoTimesOut(w.k, t)), g);
    }
  }

  lemma ReturnServed(w: World, cpu: nat)
    requires MutexInv(w) && StepEnabled(w, Return(cpu)) && Served(w)
    ensures Served(DoReturn(w, cpu))
  {
    ReturnKeeps(w, cpu);
    var w', t := DoReturn(w, cpu), w.k.current[cpu];
    if exists u :: Waits(w', u) {
      var u :| Waits(w', u);
      assert Waits(w, u) && Owned(w);
      if w.holder.None? {
        var g :| Granted(w, g);
        assert g != t ==> Granted(w', g);
      }
    }
  }

  lemma ReleaseServed(w: World, cpu: nat)
    requires MutexInv(w) && StepEnabled(w, Release(cpu))
    ensures Served(DoRelease(w, cpu))
  {
    var w1 := w.(holder := None, count := w.count - 1);
    Unheld(w, w1);
    var q := w.k.waitqs[w.wq].list;
    if q == [] {
      forall t ensures !Waits(DoRelease(w, cpu), t) {
        assert t !in w.k.waitqs[w.wq].list;
      }
    } else {
      assert q[0] in q && Waits(w, q[0]) && q[0] in w.inside;
      assert |w.inside| > 0 by { assert w.inside != {}; }
      ReleaseWakes(w1, cpu, q[0]);
    }
  }

  /** A step from a state in which the queue has an owner to wake it leads to another, except for one
      kind of step, from which it never does. */
  lemma ServedStep(w: World, st: Step)
    requires MutexInv(w) && StepEnabled(w, st) && Served(w)
    ensures Served(StepTo(w, st)) <==> !JoinsNobody(w, st)
  {
    match st
    case Acquire(cpu, timeout) => AcquireServed(w, cpu, timeout);
    case Return(cpu) => ReturnServed(w, cpu);
    case Release(cpu) => ReleaseServed(w, cpu);
    case Other(op) =>
      if op.TimesOut? && Waits(w, op.t) {
        TimeoutServed(w, op.t);
      } else {
        OtherIsKeeps(w, op);
        NextKeeps(w.k, op);
        KeepsInv(w, Next(w.k, op));
        SameRolesServed(w, w.(k := Next(w.k, op)));
      }
  }

  // ---------- runs without finite timeouts ----------

  /** No thread inside has a timeout running or has been timed out. */
  ghost predicate Untimed(w: World)
  {
    forall t :: t in w.inside && t in w.k.threads ==> !w.k.threads[t].timed && !Expired(w, t)
  }

  lemma UntimedOwned(w: World)
    requires MutexInv(w) && Untimed(w) && Served(w) && w.count > 0
    ensures Owned(w)
  {
    if w.holder.None? {
      assert w.inside != {};
      var t :| t in w.inside;
      assert InsideOk(w, t) && !Expired(w, t);
      if !Waits(w, t) {
        assert Granted(w, t);
      }
    }
  }

  lemma UntimedJoins(w: World, st: Step)
    requires MutexInv(w) && Untimed(w) && Served(w)
    ensures !JoinsNobody(w, st)
  {
    if w.count > 0 {
      UntimedOwned(w);
    }
  }

  /** An acquire with a timeout that is neither zero nor infinite. */
  ghost predicate Finite(st: Step)
  {
    st.Acquire? && st.timeout != 0 && st.timeout != INFINITE_TIME
  }

  lemma UntimedAcquire(w: World, cpu: nat, timeout: nat)
    requires MutexInv(w) && StepEnabled(w, Acquire(cpu, timeout)) && Untimed(w)
             && (timeout == 0 || timeout == INFINITE_TIME)
    ensures Untimed(DoAcquire(w, cpu, timeout))
  {
    hide Inv, DoBlock;
    if w.count > 0 && timeout != 0 {
      BlockingKeeps(w, cpu, false);
      forall t | t in w.inside ensures InsideOk(w, t) && !Expired(w, t) {
      }
    }
  }

  lemma UntimedRelease(w: World, cpu: nat)
    requires MutexInv(w) && StepEnabled(w, Release(cpu)) && Untimed(w)
    ensures Untimed(DoRelease(w, cpu))
  {
    var w1, q := w.(holder := None, count := w.count - 1), w.k.waitqs[w.wq].list;
    Unheld(w, w1);
    var w' := DoRelease(w, cpu);
    if w1.count >= 1 && q != [] {
      ReleaseWakes(w1, cpu, q[0]);
      WakeOneThreads(w.k, cpu, w.wq, q[0], NO_ERROR);
    }
    forall t | t in w'.inside && t in w'.k.threads
      ensures !w'.k.threads[t].timed && !Expired(w', t)
    {
      assert InsideOk(w, t) && !Expired(w, t);
      if q != [] && t != q[0] && w1.count >= 1 {
        assert SameWait(w.k.threads[t], w'.k.threads[t]);
      }
    }
  }

  lemma UntimedKeeps(w: World, k': State)
    requires MutexInv(w) && Inv(k') && Keeps(w.k, k', w.wq, w.inside) && Untimed(w)
    ensures Untimed(w.(k := k'))
  {
    KeepsInv(w, k');
    forall t | t in w.inside ensures t in k'.threads && !k'.threads[t].timed && !Expired(w.(k := k'), t) {
      assert InsideOk(w, t) && SameWait(w.k.threads[t], k'.threads[t]) && !Expired(w, t);
    }
  }

  lemma UntimedReturn(w: World, cpu: nat)
    requires MutexInv(w) && StepEnabled(w, Return(cpu)) && Untimed(w)
    ensures Untimed(DoReturn(w, cpu))
  {
    hide Inv;
    ReturnKeeps(w, cpu);
  }

  lemma UntimedOther(w: World, op: Op)
    requires MutexInv(w) && OtherEnabled(w, op) && Untimed(w)
    ensures Untimed(w.(k := Next(w.k, op)))
  {
    hide Inv, Keeps, Next;
    assert op.TimesOut? ==> !Waits(w, op.t);
    OtherIsKeeps(w, op);
    NextKeeps(w.k, op);
    UntimedKeeps(w, Next(w.k, op));
  }

  lemma UntimedStep(w: World, st: Step)
    requires MutexInv(w) && StepEnabled(w, st) && Untimed(w) && !Finite(st)
    ensures Untimed(StepTo(w, st))
  {
    hide Inv, Untimed, Next;
    match st
    case Acquire(cpu, timeout) => UntimedAcquire(w, cpu, timeout);
    case Return(cpu) => UntimedReturn(w, cpu);
    case Release(cpu) => UntimedRelease(w, cpu);
    case Other(op) =>
      UntimedOther(w, op);
  }

  /** In a run without finite timeouts there is always an owner, present or granted, to wake the queue. */
  lemma {:induction false} RunServed(worlds: seq<World>, steps: seq<Step>, k: nat)
    requires IsRun(worlds, steps) && k < |worlds|
    requires MutexInv(worlds[0]) && Served(worlds[0]) && Untimed(worlds[0])
    requires forall j :: 0 <= j < |steps| ==> !Finite(steps[j])
    ensures Served(worlds[k]) && Untimed(worlds[k])
  {
    hide MutexInv, Served, Untimed;
    if k > 0 {
      RunServed(worlds, steps, k - 1);
      RunKeeps(worlds, steps, k - 1);
      assert Takes(worlds[k - 1], steps[k - 1], worlds[k]);
      UntimedJoins(worlds[k - 1], steps[k - 1]);
      ServedStep(worlds[k - 1], steps[k - 1]);
      UntimedStep(worlds[k - 1], steps[k - 1]);
    }
  }

  // ---------- runs with them ----------

  /** A thread waits for ever and nobody is left to wake it. */
  ghost predicate Stuck(w: World, t: Tid)
  {
    !Owned(w) && Waits(w, t) && !w.k.threads[t].timed
  }

  lemma StuckReturn(w: World, t: Tid, cpu: nat)
    requires MutexInv(w) && Stuck(w, t) && StepEnabled(w, Return(cpu))
    ensures Stuck(DoReturn(w, cpu), t)
  {
    ReturnKeeps(w, cpu);
    var w', u := DoReturn(w, cpu), w.k.current[cpu];
    assert InsideOk(w, u) && ThreadOk(w.k, u) && !Granted(w, u);
    assert Waits(w', t);
  }

  lemma StuckAcquire(w: World, t: Tid, cpu: nat, timeout: nat)
    requires MutexInv(w) && Stuck(w, t) && StepEnabled(w, Acquire(cpu, timeout))
    ensures Stuck(DoAcquire(w, cpu, timeout), t)
  {
    hide Inv, DoBlock;
    assert t in w.inside && w.inside != {};
    if timeout != 0 {
      BlockingKeeps(w, cpu, timeout != INFINITE_TIME);
      assert Waits(DoAcquire(w, cpu, timeout), t);
    }
  }

  lemma StuckOther(w: World, t: Tid, op: Op)
    requires MutexInv(w) && Stuck(w, t) && OtherEnabled(w, op)
    ensures Stuck(w.(k := Next(w.k, op)), t)
  {
    hide Inv, Keeps, Stuck, Switch, StepBack;
    if op.TimesOut? && Waits(w, op.t) {
      StuckTimeout(w, t, op.t);
    } else {
      OtherIsKeeps(w, op);
      NextKeeps(w.k, op);
      StuckKept(w, t, Next(w.k, op));
    }
  }

  lemma StuckTimeout(w: World, t: Tid, u: Tid)
    requires MutexInv(w) && Stuck(w, t) && Waits(w, u) && w.k.threads[u].timed
    ensures Stuck(w.(k := DoTimesOut(w.k, u)), t)
  {
    hide ReadyQueued, Sched.Waiting, Cpus;
    var w' := w.(k := DoTimesOut(w.k, u));
    TimeoutKeeps(w, u);
    assert Waits(w', t);
    WaiterIs(w, u);
    WakeShape(w.k, w.wq, u, ERR_TIMED_OUT);
  }

  lemma StuckKept(w: World, t: Tid, k': State)
    requires MutexInv(w) && Stuck(w, t) && Inv(k') && Keeps(w.k, k', w.wq, w.inside)
    ensures Stuck(w.(k := k'), t)
  {
    hide Inv;
    KeepsInv(w, k');
    SameRolesServed(w, w.(k := k'));
    assert t in w.inside && SameWait(w.k.threads[t], k'.threads[t]);
  }

  /** Once stuck, always stuck: no step of any kind ever wakes that thread. */
  lemma StuckForever(w: World, t: Tid, st: Step)
    requires MutexInv(w) && Stuck(w, t) && StepEnabled(w, st)
    ensures Stuck(StepTo(w, st), t)
  {
    match st
    case Acquire(cpu, timeout) => StuckAcquire(w, t, cpu, timeout);
    case Return(cpu) => StuckReturn(w, t, cpu);
    case Release(_) =>
    case Other(op) => StuckOther(w, t, op);
  }

  lemma OneEach(s: State, a: nat, b: nat)
    requires Inv(s) && a != b && a < |s.current| && b < |s.current|
    ensures s.current[a] != s.current[b]
  {
    if a < b {
      assert s.current[a] != s.current[b];
    } else {
      assert s.current[b] != s.current[a];
    }
  }

  /** Blocking on one cpu leaves the thread of another where it is. */
  lemma BlockElsewhere(s: State, a: nat, b: nat, w: Wq, timed: bool)
    requires Inv(s) && a != b && BusyCpu(s, a) && BusyCpu(s, b) && w in s.waitqs
    ensures var k' := DoBlock(s, b, w, timed); BusyCpu(k', a) && k'.current[a] == s.current[a]
    ensures s.current[a] != s.current[b]
  {
    hide Base, Switch, NoDup;
    var s1 := Block(s, s.current[b], w, timed);
    BlockLeaves(s, b, w, timed);
    SwitchSoft(s1, b);
    SwitchElsewhere(s1, a, b);
    OneEach(s, a, b);
    assert SoftThread(s1.threads[s.current[a]], DoBlock(s, b, w, timed).threads[s.current[a]]);
  }

  lemma SwitchElsewhere(s: State, a: nat, b: nat)
    requires Leaving(s, b) && a != b && a < |s.current|
    ensures |Switch(s, b).current| == |s.current| && Switch(s, b).current[a] == s.current[a]
  {
    hide NoDup, ReadyQueued, Sched.Waiting, ThreadsOk;
    TopFacts(s, b);
    assert CpuOk(s, b);
    DispatchIs(Top(s, b).0, b, Top(s, b).1);
  }

  /** From any state in which the thread of cpu a holds the mutex, four steps lose a wakeup: the thread
      of cpu b waits with a timeout and times out; before it runs again, a releases and acquires anew. */
  lemma LostWakeup(w: World, a: nat, b: nat, d: nat) returns (worlds: seq<World>, steps: seq<Step>)
    requires MutexInv(w) && a != b && BusyCpu(w.k, a) && BusyCpu(w.k, b)
    requires w.holder == Some(w.k.current[a]) && w.inside == {} && 0 < d && d != INFINITE_TIME
    ensures IsRun(worlds, steps) && |steps| == 4 && worlds[0] == w
    ensures steps == [Acquire(b, d), Other(TimesOut(w.k.current[b])), Release(a), Acquire(a, INFINITE_TIME)]
    ensures MutexInv(worlds[4]) && Stuck(worlds[4], w.k.current[a])
  {
    hide MutexInv, Stuck, Expired, Waits, Owned;
    var ta, tb := w.k.current[a], w.k.current[b];
    steps := [Acquire(b, d), Other(TimesOut(tb)), Release(a), Acquire(a, INFINITE_TIME)];
    var w1 := JoinsTimed(w, ta, tb, a, b, d);
    var w2 := ExpiresAlone(w1, ta, tb, a);
    var w3 := ReleasedEmpty(w2, ta, tb, a);
    var w4 := JoinsForever(w3, ta, tb, a);
    worlds := [w, w1, w2, w3, w4];
    RunOfFour(w, w1, w2, w3, w4, Acquire(b, d), Other(TimesOut(tb)), Release(a), Acquire(a, INFINITE_TIME));
  }

  /** Two cpus, each running a thread of its own, the first of which holds the mutex of queue 4. */
  function Pair(): World
  {
    var idler := (c: nat) => Thread(0, Ready, 0, true, false, true, c, -1, None, NO_ERROR, false, c);
    var worker := (c: nat) => Thread(16, Running, QUANTUM, false, false, true, -1, c, None, NO_ERROR, false, c + 2);
    World(
      State(
        map[0 := idler(0), 1 := idler(1), 2 := worker(0), 3 := worker(1)],
        seq(NUM_PRIORITIES, _ => []), 0,
        map q: nat | q < 5 :: EmptyQueue(q),
        [2, 3], [0, 1]),
      4, 1, Some(2), {})
  }

  lemma PairOk()
    ensures MutexInv(Pair()) && BusyCpu(Pair().k, 0) && BusyCpu(Pair().k, 1)
  {
    hide Base;
    var k := Pair().k;
    PairBase();
    assert k.threads.Keys == {0, 1, 2, 3};
    assert k.current == [2, 3] && forall t :: t in k.current <==> t == 2 || t == 3;
  }

  lemma PairBase()
    ensures Base(Pair().k)
  {
    hide Bitmap, ReadyQueued, Sched.Waiting, Cpus;
    var k := Pair().k;
    assert k.threads.Keys == {0, 1, 2, 3};
    PairQueues(k);
    PairCpus(k);
    forall t | t in k.threads
      ensures ThreadOk(k, t)
    {
      assert t in k.idle <==> t == 0 || t == 1;
    }
  }

  lemma PairCpus(k: State)
    requires k == Pair().k
    ensures Cpus(k)
  {
    assert k.threads.Keys == {0, 1, 2, 3};
    assert k.current == [2, 3] && k.idle == [0, 1];
    assert k.current[0] == 2 && k.current[1] == 3 && k.idle[0] == 0 && k.idle[1] == 1;
    assert CpuOk(k, 0) && CpuOk(k, 1);
  }

  lemma PairQueues(k: State)
    requires k == Pair().k
    ensures Bitmap(k) && ReadyQueued(k) && Sched.Waiting(k)
  {
    assert k.threads.Keys == {0, 1, 2, 3};
    forall q: nat ensures !Bit(k.bitmap, q) {
      NoBits(q);
    }
  }

  /** So the thread that holds the mutex there comes to wait for it forever. */
  lemma LostWakeupHappens() returns (worlds: seq<World>, steps: seq<Step>)
    ensures IsRun(worlds, steps) && |steps| == 4 && worlds[0] == Pair()
    ensures MutexInv(worlds[4]) && Stuck(worlds[4], 2)
  {
    hide MutexInv, IsRun, Stuck;
    PairOk();
    worlds, steps := LostWakeup(Pair(), 0, 1, 1);
  }

  lemma RunOfFour(w0: World, w1: World, w2: World, w3: World, w4: World, s0: Step, s1: Step, s2: Step, s3: Step)
    requires Takes(w0, s0, w1) && Takes(w1, s1, w2) && Takes(w2, s2, w3) && Takes(w3, s3, w4)
    ensures IsRun([w0, w1, w2, w3, w4], [s0, s1, s2, s3])
  {
    var worlds, steps := [w0, w1, w2, w3, w4], [s0, s1, s2, s3];
    hide Takes;
    forall k | 0 <= k < |steps| ensures Takes(worlds[k], steps[k], worlds[k + 1]) {
      if k == 0 {} else if k == 1 {} else if k == 2 {} else {}
    }
  }

  lemma JoinsTimed(w: World, ta: Tid, tb: Tid, a: nat, b: nat, d: nat) returns (w': World)
    requires MutexInv(w) && a != b && BusyCpu(w.k, a) && BusyCpu(w.k, b) && ta == w.k.current[a] && tb == w.k.current[b]
    requires w.holder == Some(ta) && w.inside == {} && 0 < d && d != INFINITE_TIME
    ensures ta != tb && StepEnabled(w, Acquire(b, d)) && Takes(w, Acquire(b, d), w')
    ensures MutexInv(w') && w'.inside == {tb} && Waits(w', tb) && w'.k.threads[tb].timed
    ensures w'.holder == Some(ta) && BusyCpu(w'.k, a) && w'.k.current[a] == ta
  {
    hide Inv, DoBlock;
    BlockElsewhere(w.k, a, b, w.wq, true);
    BlockingKeeps(w, b, true);
    w' := DoAcquire(w, b, d);
    assert w.inside + {tb} == {tb};
    assert Waits(w', tb);
  }

  lemma JoinsForever(w: World, ta: Tid, tb: Tid, a: nat) returns (w': World)
    requires MutexInv(w) && ta != tb && w.inside == {tb} && w.holder == None && w.count == 1 && !Owned(w)
    requires BusyCpu(w.k, a) && w.k.current[a] == ta
    ensures StepEnabled(w, Acquire(a, INFINITE_TIME)) && Takes(w, Acquire(a, INFINITE_TIME), w')
    ensures MutexInv(w') && Stuck(w', ta)
  {
    hide Inv, DoBlock;
    BlockingKeeps(w, a, false);
    w' := DoAcquire(w, a, INFINITE_TIME);
    assert Waits(w', ta);
  }

  lemma ExpiresAlone(w: World, ta: Tid, tb: Tid, a: nat) returns (w': World)
    requires MutexInv(w) && ta != tb && w.inside == {tb} && Waits(w, tb) && w.k.threads[tb].timed
    requires w.holder == Some(ta) && BusyCpu(w.k, a) && w.k.current[a] == ta
    ensures StepEnabled(w, Other(TimesOut(tb))) && Takes(w, Other(TimesOut(tb)), w')
    ensures MutexInv(w') && w'.inside == {tb} && w'.holder == Some(ta) && BusyCpu(w'.k, a) && w'.k.current[a] == ta
    ensures (forall t :: !Waits(w', t)) && Expired(w', tb)
  {
    w' := StepTo(w, Other(TimesOut(tb)));
    TimeoutKeeps(w, tb);
    assert ThreadOk(w.k, tb);
    WakeShape(w.k, w.wq, tb, ERR_TIMED_OUT);
    forall t ensures !Waits(w', t) {
      assert Waits(w', t) ==> Waits(w, t) && t != tb;
    }
  }

  lemma NobodyQueued(w: World)
    requires MutexInv(w)
    ensures w.k.waitqs[w.wq].list == [] <==> forall t :: !Waits(w, t)
  {
    var q := w.k.waitqs[w.wq].list;
    if q != [] {
      assert q[0] in q && Waits(w, q[0]);
    }
  }

  lemma ReleasedEmpty(w: World, ta: Tid, tb: Tid, a: nat) returns (w': World)
    requires MutexInv(w) && ta != tb && w.inside == {tb} && Expired(w, tb) && (forall t :: !Waits(w, t))
    requires w.holder == Some(ta) && BusyCpu(w.k, a) && w.k.current[a] == ta
    ensures StepEnabled(w, Release(a)) && Takes(w, Release(a), w')
    ensures MutexInv(w') && w'.k == w.k && w'.inside == {tb} && w'.holder == None && w'.count == 1
    ensures w'.wq == w.wq && !Owned(w')
  {
    w' := StepTo(w, Release(a));
    NobodyQueued(w);
    Unheld(w, w.(holder := None, count := w.count - 1));
  }
}
