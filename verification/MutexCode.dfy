/** The code of kernel/mutex.c, against the steps of Mutex. */
module MutexCode {
  import opened Wrappers
  import opened Sched
  import opened Kernel
  import SchedOps
  import SchedLaws
  import opened Mutex

  class KernelMutex {
    const k: Scheduler
    const wq: Wq
    var count: int
    var holder: Option<Tid>
    ghost var inside: set<Tid>

    ghost function View(): World
      reads this, k
    {
      World(k.Snap(), wq, count, holder, inside)
    }

    /** mutex_init */
    constructor (k: Scheduler, wq: Wq)
      requires Inv(k.Snap()) && wq in k.waitqs && k.waitqs[wq].list == []
      requires forall t :: t in k.threads ==> k.threads[t].retq != wq
      ensures View() == World(k.Snap(), wq, 0, None, {}) && MutexInv(View())
    {
      this.k, this.wq, count, holder, inside := k, wq, 0, None, {};
      new;
      InitOk(k.Snap(), wq);
    }

    /** mutex_acquire_timeout up to the point where the thread has either an answer or gone to wait. */
    method AcquireTimeout(cpu: nat, timeout: nat) returns (r: Option<int>)
      requires MutexInv(View()) && StepEnabled(View(), Acquire(cpu, timeout))
      modifies this, k
      ensures View() == DoAcquire(old(View()), cpu, timeout) && MutexInv(View())
      ensures r == if old(count) == 0 then Some(NO_ERROR) else if timeout == 0 then Some(ERR_TIMED_OUT) else None
      ensures r == Some(NO_ERROR) ==> holder == Some(old(k.current)[cpu]) && k.Snap() == old(k.Snap())
      ensures r == Some(ERR_TIMED_OUT) ==> View() == old(View())
      ensures r == None ==> && holder == old(holder) && wq in k.waitqs && wq in old(k.waitqs)
                            && k.waitqs[wq].list == old(k.waitqs)[wq].list + [old(k.current)[cpu]]
    {
      hide Inv;
      ghost var w := View();
      AcquireKeeps(w, cpu, timeout);
      count := count + 1;
      if count > 1 {
        r := Contend(cpu, timeout, w);
        return;
      }
      holder := Some(k.current[cpu]);
      return Some(NO_ERROR);
    }

    /** The count was taken: wait for a release, or give the count back when there is no time to wait. */
    method Contend(cpu: nat, timeout: nat, ghost w: World) returns (r: Option<int>)
      requires MutexInv(w) && StepEnabled(w, Acquire(cpu, timeout)) && w.count > 0
      requires View() == w.(count := w.count + 1)
      modifies this, k
      ensures View() == DoAcquire(w, cpu, timeout)
      ensures r == if timeout == 0 then Some(ERR_TIMED_OUT) else None
      ensures r == None ==> && wq in k.waitqs && wq in w.k.waitqs
                            && k.waitqs[wq].list == w.k.waitqs[wq].list + [w.k.current[cpu]]
    {
      hide SchedLaws.WentToWait, Inv, SchedOps.DoBlock;
      var t := k.current[cpu];
      r := k.WaitQueueBlock(cpu, wq, timeout);
      if r.Some? {
        count := count - 1;
      } else {
        inside := inside + {t};
      }
    }

    /** The rest of it, when a thread that went to wait runs again. */
    method AcquireReturn(cpu: nat) returns (ret: int)
      requires MutexInv(View()) && StepEnabled(View(), Return(cpu))
      modifies this, k
      ensures View() == DoReturn(old(View()), cpu) && MutexInv(View())
      ensures ret == old(k.threads)[old(k.current)[cpu]].blockRet && (ret == NO_ERROR || ret == ERR_TIMED_OUT)
      ensures ret == NO_ERROR <==> holder == Some(old(k.current)[cpu])
    {
      hide Base;
      ghost var w := View();
      ReturnKeeps(w, cpu);
      var t := k.current[cpu];
      assert InsideOk(w, t);
      ret := k.WaitQueueReturn(cpu);
      inside := inside - {t};
      if ret < NO_ERROR {
        if ret == ERR_TIMED_OUT {
          count := count - 1;
        }
      } else {
        holder := Some(t);
      }
    }

    /** mutex_release */
    method Unlock(cpu: nat)
      requires MutexInv(View()) && StepEnabled(View(), Release(cpu))
      modifies this, k
      ensures View() == DoRelease(old(View()), cpu) && MutexInv(View()) && holder == None
      ensures wq in old(k.waitqs)
      ensures old(k.waitqs)[wq].list != [] ==> Granted(View(), old(k.waitqs)[wq].list[0])
      ensures old(k.waitqs)[wq].list != [] ==>
                SchedOps.OnCpu(old(k.Snap()), cpu) && SchedLaws.WokeFirst(old(k.Snap()), k.Snap(), cpu, wq, true, 0)
      ensures old(k.waitqs)[wq].list == [] ==> k.Snap() == old(k.Snap()) && forall t :: !Granted(View(), t)
    {
      hide MutexInv, Inv, Granted, SchedLaws.WokeFirst, SchedOps.DoWakeOne;
      ReleaseGrants(View(), cpu);
      ReleaseFacts(View(), cpu);
      ReleaseKeeps(View(), cpu);
      holder := None;
      count := count - 1;
      if count >= 1 {
        var _ := k.WaitQueueWakeOne(cpu, wq, true, NO_ERROR);
      }
    }
  }
}
