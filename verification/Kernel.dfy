/** The code of kernel/thread.c, working on the kernel's own variables, against the steps of SchedOps. */
module Kernel {
  import opened Bits
  import opened Lists
  import opened Wrappers
  import opened Sched
  import opened SchedOps
  import opened SchedLaws

  class Scheduler {
    var threads: map<Tid, Thread>
    var runq: seq<seq<Tid>>
    var bitmap: nat
    var waitqs: map<Wq, WaitQueue>
    var current: seq<Tid>
    const idle: seq<Tid>

    ghost function Snap(): State
      reads this
    {
      State(threads, runq, bitmap, waitqs, current, idle)
    }

    /** thread_init_early, once every cpu has become idle. */
    constructor (cpus: nat)
      ensures Snap() == Boot(cpus) && Inv(Snap())
    {
      var boot := Boot(cpus);
      threads, runq, bitmap, waitqs, current, idle :=
        boot.threads, boot.runq, boot.bitmap, boot.waitqs, boot.current, boot.idle;
      new;
      BootOk(cpus);
    }

    method InsertInRunQueue(t: Tid, head: bool)
      requires t in threads && threads[t].priority < |runq|
      modifies `runq, `bitmap
      ensures Snap() == EnterQueue(old(Snap()), t, head)
    {
      var p := threads[t].priority;
      if head {
        runq := runq[p := [t] + runq[p]];
      } else {
        runq := runq[p := runq[p] + [t]];
      }
      bitmap := WithBit(bitmap, p, true);
    }

    /** get_top_thread: the queues are found through the bitmap, highest set bit first. */
    method GetTopThread(cpu: nat) returns (t: Tid)
      requires Bitmap(Snap()) && ReadyQueued(Snap()) && cpu < |idle|
      modifies `runq, `bitmap
      ensures (Snap(), t) == Top(old(Snap()), cpu)
    {
      ghost var s := Snap();
      var bits := bitmap;
      ghost var bound: nat := NUM_PRIORITIES;
      while bits > 0
        invariant Snap() == s && bound <= NUM_PRIORITIES
        invariant forall q :: 0 <= q < bound ==> (Bit(bits, q) <==> Bit(s.bitmap, q))
        invariant forall q :: bound <= q ==> !Bit(bits, q)
        invariant PickBelow(s, cpu, bound) == PickBelow(s, cpu, NUM_PRIORITIES)
        decreases bound
      {
        var next := TopBit(bits);
        TopBitIs(bits);
        SkipEmpty(s, cpu, next + 1, bound);
        var found;
        found, t := TakeFrom(next, cpu);
        if found {
          return;
        }
        BitCleared(bits, next);
        bits, bound := WithBit(bits, next, false), next;
      }
      forall q: nat ensures !Bit(bits, q) {
        NoBits(q);
      }
      SkipEmpty(s, cpu, 0, bound);
      return idle[cpu];
    }

    /** The walk along one queue: unlink and return the first thread that may run on this cpu. */
    method TakeFrom(p: nat, cpu: nat) returns (found: bool, t: Tid)
      requires Bitmap(Snap()) && ReadyQueued(Snap()) && p < NUM_PRIORITIES
      modifies `runq, `bitmap
      ensures found <==> FirstFit(old(Snap()), old(runq)[p], cpu) < |old(runq)[p]|
      ensures !found ==> Snap() == old(Snap())
      ensures found ==> var k := FirstFit(old(Snap()), old(runq)[p], cpu);
        Snap() == Unqueue(old(Snap()), p, k) && t == old(runq)[p][k]
    {
      var k := 0;
      while k < |runq[p]|
        invariant k <= |runq[p]| && Snap() == old(Snap())
        invariant forall j :: 0 <= j < k ==> !Eligible(Snap(), runq[p][j], cpu)
      {
        t := runq[p][k];
        assert t in Snap().runq[p] && Queued(Snap(), t, p);
        if threads[t].pinned < 0 || threads[t].pinned == cpu {
          assert k == FirstFit(Snap(), runq[p], cpu);
          WithBitSame(bitmap, p);
          runq := runq[p := runq[p][..k] + runq[p][k + 1..]];
          if runq[p] == [] {
            bitmap := WithBit(bitmap, p, false);
          }
          return true, t;
        }
        k := k + 1;
      }
      return false, 0;
    }

    /** thread_resched */
    method Reschedule(cpu: nat)
      requires Leaving(Snap(), cpu)
      modifies `threads, `runq, `bitmap, `current
      ensures Snap() == Switch(old(Snap()), cpu) && Inv(Snap()) && Switched(old(Snap()), Snap(), cpu)
    {
      SwitchIs(Snap(), cpu);
      ReschedKeeps(Snap(), cpu);
      var n := GetTopThread(cpu);
      SwitchTo(cpu, n);
    }

    /** The rest of it: mark the owners and switch. */
    method SwitchTo(cpu: nat, n: Tid)
      requires n in threads && cpu < |current| && current[cpu] in threads
      modifies `threads, `current
      ensures Snap() == Dispatch(old(Snap()), cpu, n)
    {
      var previous := current[cpu];
      var next := threads[n].(state := Running);
      if n == previous {
        threads := threads[n := next];
        return;
      }
      if next.quantum <= 0 {
        next := next.(quantum := QUANTUM);
      }
      threads := threads[previous := threads[previous].(currCpu := -1)][n := next.(currCpu := cpu)];
      current := current[cpu := n];
    }

    /** The current thread goes back to ready: the opening of thread_yield and thread_preempt. */
    method PutBack(cpu: nat, quantum: int, head: bool)
      requires Inv(Snap()) && OnCpu(Snap(), cpu)
      modifies `threads, `runq, `bitmap
      ensures Snap() == StepBack(old(Snap()), cpu, quantum, head) && Leaving(Snap(), cpu)
    {
      ghost var s := Snap();
      StepBackLeaves(s, cpu, quantum, head);
      var t := current[cpu];
      threads := threads[t := threads[t].(state := Ready, quantum := quantum)];
      if !threads[t].idle {
        assert ThreadOk(s, t);
        InsertInRunQueue(t, head);
      }
    }

    method ThreadYield(cpu: nat)
      requires Inv(Snap()) && OnCpu(Snap(), cpu)
      modifies `threads, `runq, `bitmap, `current
      ensures Snap() == DoYield(old(Snap()), cpu) && Inv(Snap()) && Yielded(old(Snap()), Snap(), cpu)
    {
      YieldIs(Snap(), cpu);
      PutBack(cpu, 0, false);
      Reschedule(cpu);
    }

    method ThreadPreempt(cpu: nat)
      requires Inv(Snap()) && OnCpu(Snap(), cpu)
      modifies `threads, `runq, `bitmap, `current
      ensures Snap() == DoPreempt(old(Snap()), cpu) && Inv(Snap()) && Preempted(old(Snap()), Snap(), cpu)
    {
      PreemptIs(Snap(), cpu);
      var quantum := threads[current[cpu]].quantum;
      PutBack(cpu, quantum, quantum > 0);
      Reschedule(cpu);
    }

    method ThreadSetPriority(cpu: nat, priority: int)
      requires Inv(Snap()) && BusyCpu(Snap(), cpu)
      modifies `threads, `runq, `bitmap, `current
      ensures Snap() == DoSetPriority(old(Snap()), cpu, priority) && Inv(Snap())
      ensures Reprioritised(old(Snap()), Snap(), cpu, priority)
    {
      hide Reprioritised, Base, Switch, WithBit;
      SetPriorityIs(Snap(), cpu, priority);
      RunningFacts(Snap(), cpu);
      SetPriorityLeaves(Snap(), cpu, priority);
      var p := priority;
      if p <= IDLE_PRIORITY {
        p := IDLE_PRIORITY + 1;
      }
      if p > HIGHEST_PRIORITY {
        p := HIGHEST_PRIORITY;
      }
      var t := current[cpu];
      threads := threads[t := threads[t].(priority := p, state := Ready)];
      InsertInRunQueue(t, true);
      Reschedule(cpu);
    }

    method ThreadTimerTick(cpu: nat) returns (reschedule: bool)
      requires Inv(Snap()) && OnCpu(Snap(), cpu)
      modifies `threads
      ensures Snap() == DoTick(old(Snap()), cpu) && Inv(Snap())
      ensures var t := old(current)[cpu];
              var th := old(threads)[t];
              threads == if th.realTime || th.idle then old(threads)
                         else old(threads)[t := th.(quantum := th.quantum - 1)]
      ensures reschedule <==>
                && threads[current[cpu]].quantum <= 0 && !threads[current[cpu]].idle
                && !threads[current[cpu]].realTime
    {
      TickKeeps(Snap(), cpu);
      var t := current[cpu];
      if threads[t].realTime || threads[t].idle {
        return false;
      }
      threads := threads[t := threads[t].(quantum := threads[t].quantum - 1)];
      return threads[t].quantum <= 0;
    }

    method ThreadSleep(cpu: nat)
      requires Inv(Snap()) && BusyCpu(Snap(), cpu)
      modifies `threads, `runq, `bitmap, `current
      ensures Snap() == DoSleep(old(Snap()), cpu) && Inv(Snap()) && WentToSleep(old(Snap()), Snap(), cpu)
    {
      SleepIs(Snap(), cpu);
      GoneLeaves(Snap(), cpu, Sleeping);
      threads := threads[current[cpu] := threads[current[cpu]].(state := Sleeping)];
      Reschedule(cpu);
    }

    /** thread_sleep_handler, and the first half of thread_resume. */
    method Readied(t: Tid)
      requires Inv(Snap()) && t in threads && (threads[t].state == Suspended || threads[t].state == Sleeping)
      modifies `threads, `runq, `bitmap
      ensures Snap() == DoReady(old(Snap()), t) && Inv(Snap())
      ensures var p := old(threads)[t].priority;
              && p < |old(runq)| && runq == old(runq)[p := [t] + old(runq)[p]]
              && threads == old(threads)[t := old(threads)[t].(state := Ready)]
    {
      ReadyKeeps(Snap(), t);
      assert ThreadOk(Snap(), t);
      threads := threads[t := threads[t].(state := Ready)];
      InsertInRunQueue(t, true);
    }

    /** thread_resume, up to the yield it may end with. */
    method ThreadResume(t: Tid) returns (resched: bool)
      requires Inv(Snap()) && Enabled(Snap(), Resume(t))
      modifies `threads, `runq, `bitmap
      ensures Snap() == Next(old(Snap()), Resume(t)) && Inv(Snap())
      ensures resched <==> old(threads)[t].state == Suspended
      ensures !resched ==> Snap() == old(Snap())
      ensures resched ==>
                && old(threads)[t].priority < |old(runq)|
                && runq == old(runq)[old(threads)[t].priority := [t] + old(runq)[old(threads)[t].priority]]
                && threads == old(threads)[t := old(threads)[t].(state := Ready)]
    {
      resched := threads[t].state == Suspended;
      if resched {
        Readied(t);
      }
    }

    method ThreadExit(cpu: nat)
      requires Inv(Snap()) && BusyCpu(Snap(), cpu)
      modifies `threads, `runq, `bitmap, `waitqs, `current
      ensures Snap() == DoExit(old(Snap()), cpu) && Inv(Snap())
      ensures old(threads)[old(current)[cpu]].retq in old(waitqs) && Exited(old(Snap()), Snap(), cpu)
    {
      hide Exited, Base, WakeFromTail, Switch;
      ExitIs(Snap(), cpu);
      var t := current[cpu];
      GoneLeaves(Snap(), cpu, Death);
      threads := threads[t := threads[t].(state := Death)];
      if !threads[t].detached {
        Retq(Snap(), t);
        WakeFromTailLeaves(Snap(), cpu, threads[t].retq, NO_ERROR);
        var _ := WakeEach(threads[t].retq, NO_ERROR);
      }
      Reschedule(cpu);
    }

    /** The loop of wait_queue_wake_all. */
    method WakeEach(w: Wq, err: int) returns (ret: nat)
      requires Base(Snap()) && w in waitqs
      modifies `threads, `runq, `bitmap, `waitqs
      ensures Snap() == WakeFromTail(old(Snap()), w, err) && ret == |old(waitqs)[w].list|
    {
      hide Base, Wake, Without;
      ret := 0;
      while waitqs[w].list != []
        invariant Base(Snap()) && w in waitqs && ret + |waitqs[w].list| == |old(waitqs)[w].list|
        invariant WakeFromTail(Snap(), w, err) == WakeFromTail(old(Snap()), w, err)
        decreases |waitqs[w].list|
      {
        ghost var s := Snap();
        var q := waitqs[w].list;
        var t := q[|q| - 1];
        LastWoken(s, w, err);
        Release(t, w, q[..|q| - 1], err);
        ret := ret + 1;
      }
    }

    /** Thread t taken off wait queue w, which is left with q, marked ready and queued to run. */
    method Release(t: Tid, w: Wq, q: seq<Tid>, err: int)
      requires t in threads && w in waitqs && threads[t].waitq == Some(w) && threads[t].priority < |runq|
      requires q == Without(waitqs[w].list, t)
      modifies `threads, `waitqs, `runq, `bitmap
      ensures Snap() == Wake(old(Snap()), t, err)
    {
      waitqs := waitqs[w := WaitQueue(waitqs[w].count - 1, q)];
      threads := threads[t := threads[t].(state := Ready, waitq := None, blockRet := err)];
      InsertInRunQueue(t, true);
    }

    /** Thread t put at the tail of wait queue w. */
    method Enlist(t: Tid, w: Wq, timed: bool)
      requires t in threads && w in waitqs
      modifies `threads, `waitqs
      ensures Snap() == Block(old(Snap()), t, w, timed)
    {
      waitqs := waitqs[w := WaitQueue(waitqs[w].count + 1, waitqs[w].list + [t])];
      threads := threads[t := threads[t].(state := Blocked, waitq := Some(w), blockRet := NO_ERROR, timed := timed)];
    }

    /** The blocking half of wait_queue_block; None means the thread now waits. */
    method WaitQueueBlock(cpu: nat, w: Wq, timeout: nat) returns (r: Option<int>)
      requires Inv(Snap()) && BusyCpu(Snap(), cpu) && w in waitqs
      modifies `threads, `runq, `bitmap, `waitqs, `current
      ensures timeout == 0 ==> r == Some(ERR_TIMED_OUT) && Snap() == old(Snap())
      ensures timeout != 0 ==> r == None && Snap() == DoBlock(old(Snap()), cpu, w, timeout != INFINITE_TIME)
      ensures timeout != 0 ==> WentToWait(old(Snap()), Snap(), cpu, w, timeout != INFINITE_TIME)
      ensures timeout != 0 ==> w in waitqs && waitqs[w].list == old(waitqs)[w].list + [old(current)[cpu]]
      ensures Inv(Snap())
    {
      if timeout == 0 {
        return Some(ERR_TIMED_OUT);
      }
      var t := current[cpu];
      BlockIs(Snap(), cpu, w, timeout != INFINITE_TIME);
      BlockLeaves(Snap(), cpu, w, timeout != INFINITE_TIME);
      Enlist(t, w, timeout != INFINITE_TIME);
      Reschedule(cpu);
      return None;
    }

    /** Its other half, when the thread runs again. */
    method WaitQueueReturn(cpu: nat) returns (ret: int)
      requires Inv(Snap()) && OnCpu(Snap(), cpu)
      modifies `threads
      ensures Snap() == DoWaitReturns(old(Snap()), cpu) && Inv(Snap()) && ret == old(threads)[current[cpu]].blockRet
    {
      WaitReturnsKeeps(Snap(), cpu);
      threads := threads[current[cpu] := threads[current[cpu]].(timed := false)];
      return threads[current[cpu]].blockRet;
    }

    method WaitQueueWakeOne(cpu: nat, w: Wq, reschedule: bool, err: int) returns (ret: int)
      requires Inv(Snap()) && Enabled(Snap(), WakeOne(cpu, w, reschedule, err))
      modifies `threads, `runq, `bitmap, `waitqs, `current
      ensures Snap() == DoWakeOne(old(Snap()), cpu, w, reschedule, err) && Inv(Snap())
      ensures ret == if old(waitqs)[w].list == [] then 0 else 1
      ensures if ret == 0 then Snap() == old(Snap()) else WokeFirst(old(Snap()), Snap(), cpu, w, reschedule, err)
    {
      hide WokeFirst, Base, Wake, Switch, Without;
      WakingKeeps(Snap(), WakeOne(cpu, w, reschedule, err));
      var q := waitqs[w].list;
      if q == [] {
        return 0;
      }
      ghost var s := Snap();
      WakeOneIs(s, cpu, w, reschedule, err);
      FirstWaiter(s, cpu, w);
      if reschedule {
        var quantum := threads[current[cpu]].quantum;
        PutBack(cpu, quantum, true);
        WakeLeaves(Snap(), cpu, w, q[0], err);
      } else {
        WakeLeaves(s, cpu, w, q[0], err);
      }
      Release(q[0], w, q[1..], err);
      if reschedule {
        Reschedule(cpu);
      }
      return 1;
    }

    method WaitQueueWakeAll(cpu: nat, w: Wq, reschedule: bool, err: int) returns (ret: nat)
      requires Inv(Snap()) && Enabled(Snap(), WakeAll(cpu, w, reschedule, err))
      modifies `threads, `runq, `bitmap, `waitqs, `current
      ensures Snap() == DoWakeAll(old(Snap()), cpu, w, reschedule, err) && Inv(Snap())
      ensures ret == |old(waitqs)[w].list|
      ensures if ret == 0 then Snap() == old(Snap()) else WokeAll(old(Snap()), Snap(), cpu, w, reschedule, err)
    {
      hide WokeAll, Switch;
      if waitqs[w].list != [] {
        WakeAllIs(Snap(), cpu, w, reschedule, err);
      }
      WakingKeeps(Snap(), WakeAll(cpu, w, reschedule, err));
      if reschedule && waitqs[w].count > 0 {
        var quantum := threads[current[cpu]].quantum;
        PutBack(cpu, quantum, true);
        WakeFromTailLeaves(Snap(), cpu, w, err);
      }
      ret := WakeEach(w, err);
      if ret > 0 && reschedule {
        Reschedule(cpu);
      }
    }

    /** thread_unblock_from_wait_queue, with the timeout handler's error. */
    method TimeOut(t: Tid) returns (ret: int)
      requires Inv(Snap()) && t in threads
      modifies `threads, `runq, `bitmap, `waitqs
      ensures Snap() == DoTimesOut(old(Snap()), t) && Inv(Snap())
      ensures ret == if old(threads)[t].state == Blocked then NO_ERROR else ERR_NOT_BLOCKED
      ensures if ret == NO_ERROR then WokeOnly(old(Snap()), Snap(), t, ERR_TIMED_OUT) else Snap() == old(Snap())
    {
      if threads[t].state != Blocked {
        return ERR_NOT_BLOCKED;
      }
      ghost var s := Snap();
      TimesOutIs(s, t);
      assert ThreadOk(s, t);
      var w := threads[t].waitq.value;
      WakeLeaves(s, 0, w, t, ERR_TIMED_OUT);
      Release(t, w, Without(waitqs[w].list, t), ERR_TIMED_OUT);
      return NO_ERROR;
    }
  }

  lemma BitCleared(b: nat, p: nat)
    ensures forall q: nat :: Bit(WithBit(b, p, false), q) <==> q != p && Bit(b, q)
  {
    forall q: nat ensures Bit(WithBit(b, p, false), q) <==> q != p && Bit(b, q) {
      WithBitIs(b, p, false, q);
    }
  }

  /** Queues whose bit is clear are empty, so the simple pick passes over them too. */
  lemma {:induction false} SkipEmpty(s: State, cpu: nat, low: nat, high: nat)
    requires Bitmap(s) && low <= high <= NUM_PRIORITIES
    requires forall q :: low <= q < high ==> !Bit(s.bitmap, q)
    ensures PickBelow(s, cpu, high) == PickBelow(s, cpu, low)
    decreases high
  {
    if low < high {
      assert s.runq[high - 1] == [];
      SkipEmpty(s, cpu, low, high - 1);
    }
  }
}
