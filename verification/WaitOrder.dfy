/** Who waits longest is served first: the order of kernel/thread.c's wait queues, and of the mutex, over runs. */
module WaitOrder {
  import opened Lists
  import opened Wrappers
  import opened Sched
  import opened SchedOps
  import opened SchedLaws
  import M = Mutex

  ghost predicate WaitsOn(s: State, t: Tid, w: Wq)
  {
    t in s.threads && s.threads[t].waitq == Some(w)
  }

  /** From s to s' nobody waiting on w is overtaken. */
  ghost predicate QueueKept(s: State, s': State, w: Wq)
  {
    w in s.waitqs && w in s'.waitqs && OrderKept(s.waitqs[w].list, s'.waitqs[w].list)
  }

  lemma SameKept(s: State, s': State, w: Wq)
    requires w in s.waitqs && w in s'.waitqs && s'.waitqs[w].list == s.waitqs[w].list
    ensures QueueKept(s, s', w)
  {
  }

  lemma EmptyKept(s: State, s': State, w: Wq)
    requires w in s.waitqs && w in s'.waitqs && s'.waitqs[w].list == []
    ensures QueueKept(s, s', w)
  {
  }

  lemma BlockKept(s: State, cpu: nat, v: Wq, timed: bool, w: Wq)
    requires Inv(s) && BusyCpu(s, cpu) && v in s.waitqs && w in s.waitqs
    ensures QueueKept(s, DoBlock(s, cpu, v, timed), w)
  {
    hide Base, DoBlock, OrderKept, Switched;
    BlockIs(s, cpu, v, timed);
    var b := DoBlock(s, cpu, v, timed);
    WaitqsAfter(s, b, cpu, v, timed);
    if v == w {
      NotWaiting(s, s.current[cpu], w);
      OrderAppend(s.waitqs[w].list, s.current[cpu]);
    } else {
      SameKept(s, b, w);
    }
  }

  lemma WaitqsAfter(s: State, b: State, cpu: nat, v: Wq, timed: bool)
    requires OnCpu(s, cpu) && v in s.waitqs && WentToWait(s, b, cpu, v, timed)
    ensures b.waitqs == s.waitqs[v := WaitQueue(s.waitqs[v].count + 1, s.waitqs[v].list + [s.current[cpu]])]
  {
    hide Hands;
  }

  lemma NotWaiting(s: State, t: Tid, w: Wq)
    requires Inv(s) && t in s.current && w in s.waitqs
    ensures t !in s.waitqs[w].list
  {
    if t in s.waitqs[w].list {
      Waiter(s, w, t);
    }
  }

  lemma WakeOneKept(s: State, cpu: nat, v: Wq, resched: bool, err: int, w: Wq)
    requires Inv(s) && OnCpu(s, cpu) && v in s.waitqs && w in s.waitqs && (resched ==> BusyCpu(s, cpu))
    ensures QueueKept(s, DoWakeOne(s, cpu, v, resched, err), w)
  {
    hide Base, OrderKept, Switched, Wake, Switch, StepBack;
    var q := s.waitqs[v].list;
    if q == [] {
      SameKept(s, s, w);
    } else {
      WakeOneIs(s, cpu, v, resched, err);
      var b := DoWakeOne(s, cpu, v, resched, err);
      if v == w {
        ListOk(s, w);
        OrderDelete(q, 0);
        assert q[..0] + q[1..] == q[1..];
      } else {
        SameKept(s, b, w);
      }
    }
  }

  lemma ListOk(s: State, w: Wq)
    requires Base(s) && w in s.waitqs
    ensures NoDup(s.waitqs[w].list) && forall t :: t in s.waitqs[w].list <==> WaitsOn(s, t, w)
  {
  }

  lemma WakeAllKept(s: State, cpu: nat, v: Wq, resched: bool, err: int, w: Wq)
    requires Inv(s) && OnCpu(s, cpu) && v in s.waitqs && w in s.waitqs && (resched ==> BusyCpu(s, cpu))
    ensures QueueKept(s, DoWakeAll(s, cpu, v, resched, err), w)
  {
    hide Base, OrderKept, Hands, WakeFromTail, Switch, StepBack, OfPriority;
    if s.waitqs[v].list == [] {
      SameKept(s, s, w);
    } else {
      WakeAllIs(s, cpu, v, resched, err);
      var b := DoWakeAll(s, cpu, v, resched, err);
      if v == w {
        EmptyKept(s, b, w);
      } else {
        SameKept(s, b, w);
      }
    }
  }

  lemma ExitKept(s: State, cpu: nat, w: Wq)
    requires Inv(s) && BusyCpu(s, cpu) && w in s.waitqs
    ensures QueueKept(s, DoExit(s, cpu), w)
  {
    hide Base, OrderKept, Hands, DoExit, OfPriority;
    ExitIs(s, cpu);
    var t, b := s.current[cpu], DoExit(s, cpu);
    if s.threads[t].retq == w && !s.threads[t].detached {
      EmptyKept(s, b, w);
    } else {
      SameKept(s, b, w);
    }
  }

  lemma TimesOutKept(s: State, t: Tid, w: Wq)
    requires Inv(s) && t in s.threads && w in s.waitqs
    ensures QueueKept(s, DoTimesOut(s, t), w)
  {
    hide Base, OrderKept, DoTimesOut;
    if s.threads[t].state == Blocked {
      TimesOutIs(s, t);
      var v, b := s.threads[t].waitq.value, DoTimesOut(s, t);
      if v == w {
        ListOk(s, w);
        var q := s.waitqs[w].list;
        var i: nat :| i < |q| && q[i] == t && b.waitqs[w].list == q[..i] + q[i + 1..];
        OrderDelete(q, i);
      } else {
        SameKept(s, b, w);
      }
    } else {
      NotBlocked(s, t);
      SameKept(s, s, w);
    }
  }

  lemma NotBlocked(s: State, t: Tid)
    requires Inv(s) && t in s.threads && s.threads[t].state != Blocked
    ensures DoTimesOut(s, t) == s
  {
  }

  lemma SwitchingKept(s: State, op: Op, w: Wq)
    requires Inv(s) && Enabled(s, op) && w in s.waitqs && (op.Yield? || op.Preempt? || op.SetPriority? || op.Sleep?)
    ensures QueueKept(s, Next(s, op), w)
  {
    hide Base, OrderKept, Hands, DoYield, DoPreempt, DoSetPriority, DoSleep, TailTurn, HeadTurn;
    match op {
      case Yield(cpu) => YieldIs(s, cpu);
      case Preempt(cpu) => PreemptIs(s, cpu);
      case SetPriority(cpu, wanted) => SetPriorityIs(s, cpu, wanted);
      case Sleep(cpu) => SleepIs(s, cpu);
    }
    SameKept(s, Next(s, op), w);
  }

  /** No step lets anybody overtake anybody on any wait queue. */
  lemma NextKept(s: State, op: Op, w: Wq)
    requires Inv(s) && Enabled(s, op) && w in s.waitqs
    ensures QueueKept(s, Next(s, op), w)
  {
    hide Base, OrderKept, QueueKept, DoYield, DoPreempt, DoSetPriority, DoSleep, DoExit, DoBlock, DoWakeOne, DoWakeAll,
         DoTimesOut;
    match op
    case BlockOn(cpu, v, timed) => BlockKept(s, cpu, v, timed, w);
    case WakeOne(cpu, v, resched, err) => WakeOneKept(s, cpu, v, resched, err, w);
    case WakeAll(cpu, v, resched, err) => WakeAllKept(s, cpu, v, resched, err, w);
    case Exit(cpu) => ExitKept(s, cpu, w);
    case TimesOut(t) => TimesOutKept(s, t, w);
    case Yield(_) => SwitchingKept(s, op, w);
    case Preempt(_) => SwitchingKept(s, op, w);
    case SetPriority(_, _) => SwitchingKept(s, op, w);
    case Sleep(_) => SwitchingKept(s, op, w);
    case _ => SameKept(s, Next(s, op), w);
  }

  /** The first of a queue is behind nobody. */
  lemma FirstBefore(s: State, w: Wq, u: Tid)
    requires Base(s) && w in s.waitqs && s.waitqs[w].list != []
    ensures !Before(s.waitqs[w].list, u, s.waitqs[w].list[0])
  {
  }

  /** wait_queue_wake_one wakes whoever has waited longest.  If a wake-one on w at step k of a run takes thread t
      off the queue, then over whatever stretch j..k any thread u has been waiting on w, t has been, too. */
  lemma LongestWoken(states: seq<State>, ops: seq<Op>, j: nat, k: nat, w: Wq, t: Tid, u: Tid)
    requires IsRun(states, ops) && Inv(states[0]) && j <= k < |ops| && ops[k].WakeOne? && ops[k].w == w
    requires WaitsOn(states[k], t, w) && !WaitsOn(states[k + 1], t, w)
    requires forall i :: j <= i <= k ==> WaitsOn(states[i], u, w)
    ensures WaitsOn(states[j], t, w)
  {
    hide Inv, OrderKept, Next, WaitsOn;
    forall i | j <= i <= k
      ensures Inv(states[i]) && w in states[i].waitqs
      ensures forall x :: x in states[i].waitqs[w].list <==> WaitsOn(states[i], x, w)
    {
      RunKeeps(states, ops, i);
      Known(states[i], u, w);
    }
    var lists := seq(k + 1, i requires 0 <= i <= k => if j <= i then states[i].waitqs[w].list else []);
    forall i | j <= i < k
      ensures OrderKept(lists[i], lists[i + 1])
    {
      NextKept(states[i], ops[i], w);
    }
    OnlyFirst(states[k], ops[k], t);
    FirstIsOldest(lists, j, k, t, u);
  }

  lemma Known(s: State, u: Tid, w: Wq)
    requires Inv(s) && WaitsOn(s, u, w)
    ensures w in s.waitqs && forall x :: x in s.waitqs[w].list <==> WaitsOn(s, x, w)
  {
    assert ThreadOk(s, u);
  }

  /** A wake-one takes nobody but the first off the queue. */
  lemma OnlyFirst(s: State, op: Op, t: Tid)
    requires Inv(s) && Enabled(s, op) && op.WakeOne? && WaitsOn(s, t, op.w) && !WaitsOn(Next(s, op), t, op.w)
    ensures forall u :: !Before(s.waitqs[op.w].list, u, t)
  {
    hide Base, Hands, DoWakeOne, Before;
    ListOk(s, op.w);
    WakeOneIs(s, op.cpu, op.w, op.resched, op.err);
    var h, b := s.waitqs[op.w].list[0], Next(s, op);
    assert t == h;
    forall u
      ensures !Before(s.waitqs[op.w].list, u, t)
    {
      FirstBefore(s, op.w, u);
    }
  }

  // ---------- the mutex ----------

  lemma StepKept(w: M.World, st: M.Step)
    requires M.MutexInv(w) && M.StepEnabled(w, st)
    ensures M.StepTo(w, st).wq == w.wq && QueueKept(w.k, M.StepTo(w, st).k, w.wq)
  {
    hide Base, OrderKept, QueueKept, DoBlock, DoWakeOne, Next;
    match st
    case Acquire(cpu, timeout) =>
      BlockKept(w.k, cpu, w.wq, timeout != INFINITE_TIME, w.wq);
      SameKept(w.k, w.k, w.wq);
    case Return(cpu) =>
      SameKept(w.k, M.DoReturn(w, cpu).k, w.wq);
    case Release(cpu) =>
      WakeOneKept(w.k, cpu, w.wq, true, NO_ERROR, w.wq);
      SameKept(w.k, w.k, w.wq);
    case Other(op) =>
      NextKept(w.k, op, w.wq);
  }

  /** The mutex goes to whoever has waited longest for it.  If a release at step k of a run grants it to t, then
      over whatever stretch j..k any thread u has been waiting for it, t has been, too. */
  lemma LongestGranted(worlds: seq<M.World>, steps: seq<M.Step>, j: nat, k: nat, t: Tid, u: Tid)
    requires M.IsRun(worlds, steps) && M.MutexInv(worlds[0]) && j <= k < |steps| && steps[k].Release?
    requires !M.Granted(worlds[k], t) && M.Granted(worlds[k + 1], t)
    requires forall i :: j <= i <= k ==> M.Waits(worlds[i], u)
    ensures M.Waits(worlds[j], t)
  {
    hide M.MutexInv, Inv, OrderKept, M.StepTo, M.Waits, M.Granted;
    forall i | j <= i <= k
      ensures M.MutexInv(worlds[i]) && M.Takes(worlds[i], steps[i], worlds[i + 1])
      ensures worlds[i].wq in worlds[i].k.waitqs
      ensures forall x :: x in worlds[i].k.waitqs[worlds[i].wq].list <==> M.Waits(worlds[i], x)
    {
      M.RunKeeps(worlds, steps, i);
      KnownHere(worlds[i]);
    }
    var lists := seq(k + 1, i requires 0 <= i <= k =>
                            if j <= i then worlds[i].k.waitqs[worlds[i].wq].list else []);
    forall i | j <= i < k
      ensures OrderKept(lists[i], lists[i + 1])
    {
      assert M.Takes(worlds[i], steps[i], worlds[i + 1]);
      StepKept(worlds[i], steps[i]);
    }
    assert M.Takes(worlds[k], steps[k], worlds[k + 1]);
    GrantsFirst(worlds[k], steps[k].cpu, t);
    FirstIsOldest(lists, j, k, t, u);
  }

  lemma KnownHere(w: M.World)
    requires M.MutexInv(w)
    ensures w.wq in w.k.waitqs && forall x :: x in w.k.waitqs[w.wq].list <==> M.Waits(w, x)
  {
  }

  /** A release grants the mutex to nobody but the first of the queue. */
  lemma GrantsFirst(w: M.World, cpu: nat, t: Tid)
    requires M.MutexInv(w) && M.StepEnabled(w, M.Release(cpu))
    requires !M.Granted(w, t) && M.Granted(M.StepTo(w, M.Release(cpu)), t)
    ensures M.Waits(w, t) && forall u :: !Before(w.k.waitqs[w.wq].list, u, t)
  {
    var w1 := w.(holder := None, count := w.count - 1);
    M.Unheld(w, w1);
    var q := w.k.waitqs[w.wq].list;
    if w1.count >= 1 && q != [] {
      M.ReleaseWakes(w1, cpu, q[0]);
      assert t == q[0];
      forall u
        ensures !Before(q, u, t)
      {
        FirstBefore(w.k, w.wq, u);
      }
    }
  }
}
