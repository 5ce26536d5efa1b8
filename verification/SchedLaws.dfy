/** What the operations of kernel/thread.c come to, told by the threads, the run queues and the wait queues
    before and after them. */
module SchedLaws {
  import opened Lists
  import opened Wrappers
  import opened Sched
  import opened SchedOps

  // ---------- who gets the cpu ----------

  /** Not pinned, or pinned to this cpu. */
  ghost predicate MayRun(threads: map<Tid, Thread>, t: Tid, cpu: nat)
  {
    t in threads && (threads[t].pinned < 0 || threads[t].pinned == cpu)
  }

  /** Thread k of a queue is the first this cpu may run. */
  ghost predicate FirstOf(threads: map<Tid, Thread>, q: seq<Tid>, cpu: nat, k: nat)
  {
    k < |q| && MayRun(threads, q[k], cpu) && forall j :: 0 <= j < k ==> !MayRun(threads, q[j], cpu)
  }

  /** The queue has a thread this cpu may run. */
  ghost predicate Offers(threads: map<Tid, Thread>, q: seq<Tid>, cpu: nat)
  {
    exists k :: 0 <= k < |q| && MayRun(threads, q[k], cpu)
  }

  /** No queue from priority p up has one. */
  ghost predicate NoneFrom(threads: map<Tid, Thread>, runq: seq<seq<Tid>>, cpu: nat, p: nat)
  {
    forall q :: p <= q < |runq| ==> !Offers(threads, runq[q], cpu)
  }

  /** From these run queues the cpu goes to n, the first it may run of the highest priority that has one, or to
      its idle thread when no queue has one; runq' are the queues without n, otherwise in the same order. */
  ghost predicate Hands(threads: map<Tid, Thread>, runq: seq<seq<Tid>>, idle: seq<Tid>, cpu: nat, n: Tid,
                        runq': seq<seq<Tid>>)
  {
    && cpu < |idle| && n in threads
    && if n == idle[cpu] then NoneFrom(threads, runq, cpu, 0) && runq' == runq
       else
         var p := threads[n].priority;
         && p < |runq| && NoneFrom(threads, runq, cpu, p + 1)
         && exists k: nat :: TakesAt(threads, runq[p], cpu, n, k)
                             && runq' == runq[p := runq[p][..k] + runq[p][k + 1..]]
  }

  ghost predicate TakesAt(threads: map<Tid, Thread>, q: seq<Tid>, cpu: nat, n: Tid, k: nat)
  {
    FirstOf(threads, q, cpu, k) && q[k] == n
  }

  /** A reschedule on cpu leads from a to b: the queues hand the cpu to a thread, which gets a fresh quantum of 5
      exactly when it takes over from another with none left. */
  ghost predicate Switched(a: State, b: State, cpu: nat)
  {
    && cpu < |a.current| && cpu < |b.current| && a.current[cpu] in a.threads
    && var o, n := a.current[cpu], b.current[cpu];
       && Hands(a.threads, a.runq, a.idle, cpu, n, b.runq)
       && b.current == a.current[cpu := n] && b.waitqs == a.waitqs && b.idle == a.idle
       && b.threads ==
          if n == o then a.threads[n := a.threads[n].(state := Running)]
          else a.threads[o := a.threads[o].(currCpu := -1)][n := TakenOver(a.threads[n], cpu)]
  }

  function TakenOver(th: Thread, cpu: nat): Thread
  {
    th.(state := Running, currCpu := cpu, quantum := if th.quantum <= 0 then 5 else th.quantum)
  }

  /** What a reschedule starts from. */
  lemma CpuFacts(s: State, cpu: nat)
    requires Base(s) && cpu < |s.current|
    ensures |s.runq| == NUM_PRIORITIES && |s.current| == |s.idle| && CpuOk(s, cpu)
    ensures ThreadOk(s, s.current[cpu])
  {
    assert CpuOk(s, cpu) && ThreadOk(s, s.current[cpu]);
  }

  lemma TopHands(s: State, cpu: nat)
    requires Leaving(s, cpu)
    ensures Hands(s.threads, s.runq, s.idle, cpu, Top(s, cpu).1, Top(s, cpu).0.runq)
  {
    hide Waiting, Cpus;
    CpuFacts(s, cpu);
    TopFacts(s, cpu);
    PickBelowIs(s, cpu, NUM_PRIORITIES);
    var x, n := PickBelow(s, cpu, NUM_PRIORITIES), Top(s, cpu).1;
    var low := if x.Some? then x.value.0 + 1 else 0;
    forall q | low <= q < |s.runq|
      ensures !Offers(s.threads, s.runq[q], cpu)
    {
      NoFit(s, s.runq[q], cpu);
    }
    if x.Some? {
      var p, k := x.value.0, x.value.1;
      assert n in s.runq[p];
      assert Queued(s, n, p);
      assert TakesAt(s.threads, s.runq[p], cpu, n, k);
    }
  }

  lemma NoFit(s: State, q: seq<Tid>, cpu: nat)
    requires FirstFit(s, q, cpu) == |q|
    ensures !Offers(s.threads, q, cpu)
  {
  }

  lemma SwitchIs(s: State, cpu: nat)
    requires Leaving(s, cpu)
    ensures Switched(s, Switch(s, cpu), cpu)
  {
    hide Base, Hands, PickBelow;
    CpuFacts(s, cpu);
    TopHands(s, cpu);
    ReschedKeeps(s, cpu);
  }

  // ---------- turns at the head and at the tail ----------

  /** Thread t was put at the tail of its queue before the cpu was handed to n: it runs on exactly when no ready
      thread of its own or a higher priority may run here; otherwise it is the last of its priority. */
  ghost predicate TailTurn(threads: map<Tid, Thread>, runq: seq<seq<Tid>>, cpu: nat, t: Tid, n: Tid,
                           runq': seq<seq<Tid>>)
    requires t in threads && threads[t].priority < |runq| == |runq'|
  {
    var p := threads[t].priority;
    && (n == t <==> NoneFrom(threads, runq, cpu, p))
    && (n != t ==> runq'[p] != [] && runq'[p][|runq'[p]| - 1] == t)
    && (NoneFrom(threads, runq, cpu, p + 1) && Offers(threads, runq[p], cpu) ==>
          exists k: nat :: TakesAt(threads, runq[p], cpu, n, k))
  }

  /** Thread t was put at the head of queue p: it runs on exactly when no ready thread of a higher priority may
      run here; otherwise it is the first of its priority. */
  ghost predicate HeadTurn(threads: map<Tid, Thread>, runq: seq<seq<Tid>>, cpu: nat, t: Tid, p: nat, n: Tid,
                           runq': seq<seq<Tid>>)
    requires p < |runq| == |runq'|
  {
    && (n == t <==> NoneFrom(threads, runq, cpu, p + 1))
    && (n != t ==> runq'[p] == [t] + runq[p])
  }

  lemma TailTurnIs(threads: map<Tid, Thread>, runq: seq<seq<Tid>>, idle: seq<Tid>, cpu: nat, t: Tid, n: Tid,
                   runq': seq<seq<Tid>>)
    requires t in threads && threads[t].priority < |runq| && MayRun(threads, t, cpu) && t !in runq[threads[t].priority]
    requires cpu < |idle| && t != idle[cpu]
    requires var p := threads[t].priority; Hands(threads, runq[p := runq[p] + [t]], idle, cpu, n, runq')
    ensures |runq'| == |runq| && TailTurn(threads, runq, cpu, t, n, runq')
  {
    var p := threads[t].priority;
    var q := runq[p] + [t];
    var with := runq[p := q];
    assert q[|q| - 1] == t && Offers(threads, with[p], cpu);
    assert n != idle[cpu];
    var pn := threads[n].priority;
    var k: nat :| TakesAt(threads, with[pn], cpu, n, k) && runq' == with[pn := with[pn][..k] + with[pn][k + 1..]];
    assert Offers(threads, with[pn], cpu);
    assert pn >= p;
    assert forall i :: 0 <= i < |runq| && i != p ==> with[i] == runq[i];
    if pn == p {
      AtTail(threads, runq[p], t, cpu, n, k);
    }
  }

  /** Taking the first of a queue with t at its end. */
  lemma AtTail(threads: map<Tid, Thread>, q: seq<Tid>, t: Tid, cpu: nat, n: Tid, k: nat)
    requires t !in q && TakesAt(threads, q + [t], cpu, n, k)
    ensures n == t <==> !Offers(threads, q, cpu)
    ensures n != t ==> TakesAt(threads, q, cpu, n, k)
    ensures n != t ==> var r := (q + [t])[..k] + (q + [t])[k + 1..]; r != [] && r[|r| - 1] == t
  {
    if k < |q| {
      assert (q + [t])[k] == q[k];
      assert MayRun(threads, q[k], cpu);
      assert forall j :: 0 <= j < k ==> (q + [t])[j] == q[j];
    } else {
      forall i | 0 <= i < |q|
        ensures !MayRun(threads, q[i], cpu)
      {
        assert (q + [t])[i] == q[i];
      }
    }
  }

  lemma HeadTurnIs(threads: map<Tid, Thread>, runq: seq<seq<Tid>>, idle: seq<Tid>, cpu: nat, t: Tid, n: Tid,
                   runq': seq<seq<Tid>>)
    requires t in threads && threads[t].priority < |runq| && MayRun(threads, t, cpu)
    requires cpu < |idle| && t != idle[cpu]
    requires forall i :: threads[t].priority < i < |runq| ==> t !in runq[i]
    requires var p := threads[t].priority; Hands(threads, runq[p := [t] + runq[p]], idle, cpu, n, runq')
    ensures |runq'| == |runq| && HeadTurn(threads, runq, cpu, t, threads[t].priority, n, runq')
  {
    var p := threads[t].priority;
    var with := runq[p := [t] + runq[p]];
    assert with[p][0] == t && Offers(threads, with[p], cpu);
    assert n != idle[cpu];
    var pn := threads[n].priority;
    var k: nat :| TakesAt(threads, with[pn], cpu, n, k) && runq' == with[pn := with[pn][..k] + with[pn][k + 1..]];
    assert Offers(threads, with[pn], cpu);
    assert pn >= p;
    assert forall i :: 0 <= i < |runq| && i != p ==> with[i] == runq[i];
    assert pn == p ==> k == 0;
  }

  /** Hands looks at pins and priorities only. */
  lemma HandsAlike(a: map<Tid, Thread>, b: map<Tid, Thread>, runq: seq<seq<Tid>>, idle: seq<Tid>, cpu: nat, n: Tid,
                   runq': seq<seq<Tid>>)
    requires Hands(a, runq, idle, cpu, n, runq') && a.Keys == b.Keys
    requires forall t :: t in a ==> a[t].pinned == b[t].pinned && a[t].priority == b[t].priority
    ensures Hands(b, runq, idle, cpu, n, runq')
  {
    assert forall t :: MayRun(a, t, cpu) == MayRun(b, t, cpu);
    forall q
      ensures Offers(a, q, cpu) == Offers(b, q, cpu)
    {
      OffersAlike(a, b, q, cpu);
    }
    if n != idle[cpu] {
      var p := a[n].priority;
      var k: nat :| TakesAt(a, runq[p], cpu, n, k) && runq' == runq[p := runq[p][..k] + runq[p][k + 1..]];
      assert TakesAt(b, runq[p], cpu, n, k);
    }
  }

  lemma OffersAlike(a: map<Tid, Thread>, b: map<Tid, Thread>, q: seq<Tid>, cpu: nat)
    requires forall t :: MayRun(a, t, cpu) == MayRun(b, t, cpu)
    ensures Offers(a, q, cpu) == Offers(b, q, cpu)
  {
    if Offers(a, q, cpu) {
      var k :| 0 <= k < |q| && MayRun(a, q[k], cpu);
      assert MayRun(b, q[k], cpu);
    }
    if Offers(b, q, cpu) {
      var k :| 0 <= k < |q| && MayRun(b, q[k], cpu);
      assert MayRun(a, q[k], cpu);
    }
  }

  // ---------- the operations that give up the cpu ----------

  /** thread_yield: behind its equals, with its quantum gone. */
  ghost predicate Yielded(s: State, b: State, cpu: nat)
    requires OnCpu(s, cpu)
  {
    var t := s.current[cpu];
    var th := s.threads[t];
    var p := th.priority;
    && p < |s.runq| == |b.runq| && cpu < |b.current|
    && Switched(s.(threads := s.threads[t := th.(state := Ready, quantum := 0)],
                   runq := if th.idle then s.runq else s.runq[p := s.runq[p] + [t]]), b, cpu)
    && (!th.idle ==> TailTurn(s.threads, s.runq, cpu, t, b.current[cpu], b.runq))
  }

  /** thread_preempt: before its equals while it has quantum left, behind them after that. */
  ghost predicate Preempted(s: State, b: State, cpu: nat)
    requires OnCpu(s, cpu)
  {
    var t := s.current[cpu];
    var th := s.threads[t];
    var p := th.priority;
    && p < |s.runq| == |b.runq| && cpu < |b.current|
    && Switched(s.(threads := s.threads[t := th.(state := Ready)],
                   runq := if th.idle then s.runq
                           else s.runq[p := if th.quantum > 0 then [t] + s.runq[p] else s.runq[p] + [t]]), b, cpu)
    && (!th.idle && th.quantum > 0 ==> HeadTurn(s.threads, s.runq, cpu, t, p, b.current[cpu], b.runq))
    && (!th.idle && th.quantum <= 0 ==> TailTurn(s.threads, s.runq, cpu, t, b.current[cpu], b.runq))
  }

  /** thread_set_priority: between 1 and 31, and before its new equals. */
  ghost predicate Reprioritised(s: State, b: State, cpu: nat, wanted: int)
    requires OnCpu(s, cpu)
  {
    var t := s.current[cpu];
    var p := if wanted < 1 then 1 else if wanted > 31 then 31 else wanted;
    && p < |s.runq| == |b.runq| && cpu < |b.current|
    && Switched(s.(threads := s.threads[t := s.threads[t].(state := Ready, priority := p)],
                   runq := s.runq[p := [t] + s.runq[p]]), b, cpu)
    && HeadTurn(s.threads, s.runq, cpu, t, p, b.current[cpu], b.runq)
  }

  /** thread_sleep: in no queue. */
  ghost predicate WentToSleep(s: State, b: State, cpu: nat)
    requires OnCpu(s, cpu)
  {
    var t := s.current[cpu];
    Switched(s.(threads := s.threads[t := s.threads[t].(state := Sleeping)]), b, cpu)
  }

  /** The blocking half of wait_queue_block: last of those who wait. */
  ghost predicate WentToWait(s: State, b: State, cpu: nat, w: Wq, timed: bool)
    requires OnCpu(s, cpu) && w in s.waitqs
  {
    var t := s.current[cpu];
    && Switched(s.(threads := s.threads[t := s.threads[t].(state := Blocked, waitq := Some(w), blockRet := 0,
                                                           timed := timed)],
                   waitqs := s.waitqs[w := WaitQueue(s.waitqs[w].count + 1, s.waitqs[w].list + [t])]), b, cpu)
    && w in b.waitqs && b.waitqs[w].list == s.waitqs[w].list + [t]
  }

  /** The current thread of a cpu, as the run queues know it. */
  lemma RunningFacts(s: State, cpu: nat)
    requires Inv(s) && cpu < |s.current|
    ensures |s.runq| == NUM_PRIORITIES && |s.current| == |s.idle| && s.current[cpu] in s.threads
    ensures var t := s.current[cpu];
            && s.threads[t].priority < NUM_PRIORITIES && MayRun(s.threads, t, cpu) && s.threads[t].state == Running
            && (forall p :: 0 <= p < NUM_PRIORITIES ==> t !in s.runq[p])
            && (!s.threads[t].idle ==> t != s.idle[cpu])
  {
    CpuFacts(s, cpu);
    var t := s.current[cpu];
    forall p | 0 <= p < NUM_PRIORITIES
      ensures t !in s.runq[p]
    {
      assert !Queued(s, t, p);
    }
    assert ThreadOk(s, s.idle[cpu]);
  }

  lemma YieldIs(s: State, cpu: nat)
    requires Inv(s) && OnCpu(s, cpu)
    ensures Yielded(s, DoYield(s, cpu), cpu)
  {
    hide Inv, Hands, TailTurn, Switch;
    RunningFacts(s, cpu);
    StepBackLeaves(s, cpu, 0, false);
    var a := StepBack(s, cpu, 0, false);
    SwitchIs(a, cpu);
    var b, t := Switch(a, cpu), s.current[cpu];
    var p := s.threads[t].priority;
    SameButBitmap(a, s.(threads := s.threads[t := s.threads[t].(state := Ready, quantum := 0)],
                        runq := if s.threads[t].idle then s.runq else s.runq[p := s.runq[p] + [t]]), b, cpu);
    HandedSize(a, b, cpu);
    if !s.threads[t].idle {
      HandsAlike(a.threads, s.threads, a.runq, s.idle, cpu, b.current[cpu], b.runq);
      TailTurnIs(s.threads, s.runq, s.idle, cpu, t, b.current[cpu], b.runq);
    }
  }

  /** The bitmap is no part of it. */
  lemma SameButBitmap(a: State, a': State, b: State, cpu: nat)
    requires Switched(a, b, cpu) && a' == a.(bitmap := a'.bitmap)
    ensures Switched(a', b, cpu)
  {
    hide Hands;
  }

  lemma HandedSize(a: State, b: State, cpu: nat)
    requires Switched(a, b, cpu)
    ensures |b.runq| == |a.runq| && |b.current| == |a.current|
  {
  }

  lemma PreemptIs(s: State, cpu: nat)
    requires Inv(s) && OnCpu(s, cpu)
    ensures Preempted(s, DoPreempt(s, cpu), cpu)
  {
    hide Inv, Hands, TailTurn, HeadTurn, Switch;
    RunningFacts(s, cpu);
    var t := s.current[cpu];
    var q, p := s.threads[t].quantum, s.threads[t].priority;
    StepBackLeaves(s, cpu, q, q > 0);
    var a := StepBack(s, cpu, q, q > 0);
    SwitchIs(a, cpu);
    var b := Switch(a, cpu);
    SameButBitmap(a, s.(threads := s.threads[t := s.threads[t].(state := Ready)],
                        runq := if s.threads[t].idle then s.runq
                                else s.runq[p := if q > 0 then [t] + s.runq[p] else s.runq[p] + [t]]), b, cpu);
    HandedSize(a, b, cpu);
    if !s.threads[t].idle {
      HandsAlike(a.threads, s.threads, a.runq, s.idle, cpu, b.current[cpu], b.runq);
      if q > 0 {
        HeadTurnIs(s.threads, s.runq, s.idle, cpu, t, b.current[cpu], b.runq);
      } else {
        TailTurnIs(s.threads, s.runq, s.idle, cpu, t, b.current[cpu], b.runq);
      }
    }
  }

  lemma SetPriorityIs(s: State, cpu: nat, wanted: int)
    requires Inv(s) && BusyCpu(s, cpu)
    ensures Reprioritised(s, DoSetPriority(s, cpu, wanted), cpu, wanted)
  {
    hide Inv, Hands, HeadTurn, Switch;
    RunningFacts(s, cpu);
    SetPriorityLeaves(s, cpu, wanted);
    var t, p := s.current[cpu], Clamp(wanted);
    var a := MakeReady(s, t, s.threads[t].(state := Ready, priority := p), true);
    SwitchIs(a, cpu);
    var b := Switch(a, cpu);
    SameButBitmap(a, s.(threads := a.threads, runq := a.runq), b, cpu);
    HandedSize(a, b, cpu);
    HeadTurnIs(a.threads, s.runq, s.idle, cpu, t, b.current[cpu], b.runq);
    HeadTurnAlike(a.threads, s.threads, s.runq, cpu, t, p, b.current[cpu], b.runq);
  }

  lemma HeadTurnAlike(a: map<Tid, Thread>, b: map<Tid, Thread>, runq: seq<seq<Tid>>, cpu: nat, t: Tid, p: nat, n: Tid,
                      runq': seq<seq<Tid>>)
    requires p < |runq| == |runq'| && HeadTurn(a, runq, cpu, t, p, n, runq')
    requires a.Keys == b.Keys && forall u :: u in a ==> a[u].pinned == b[u].pinned
    ensures HeadTurn(b, runq, cpu, t, p, n, runq')
  {
    assert forall u :: MayRun(a, u, cpu) == MayRun(b, u, cpu);
    forall q
      ensures Offers(a, q, cpu) == Offers(b, q, cpu)
    {
      OffersAlike(a, b, q, cpu);
    }
  }

  lemma SleepIs(s: State, cpu: nat)
    requires Inv(s) && BusyCpu(s, cpu)
    ensures WentToSleep(s, DoSleep(s, cpu), cpu)
  {
    hide Inv, Hands, Switch, Switched;
    GoneLeaves(s, cpu, Sleeping);
    SwitchIs(SetThread(s, s.current[cpu], s.threads[s.current[cpu]].(state := Sleeping)), cpu);
  }

  lemma BlockIs(s: State, cpu: nat, w: Wq, timed: bool)
    requires Inv(s) && BusyCpu(s, cpu) && w in s.waitqs
    ensures WentToWait(s, DoBlock(s, cpu, w, timed), cpu, w, timed)
  {
    hide Inv, Hands, Switch;
    BlockLeaves(s, cpu, w, timed);
    SwitchIs(Block(s, s.current[cpu], w, timed), cpu);
  }

  // ---------- the operations that wake ----------

  /** The record of a thread woken with answer err. */
  function WokenUp(th: Thread, err: int): Thread
  {
    th.(state := Ready, waitq := None, blockRet := err)
  }

  /** wait_queue_wake_one on a queue with waiters: the first of them is woken and goes before its equals.  With a
      reschedule it runs at once exactly when it may run here, has at least the caller's priority, and no ready
      thread of a higher priority may run here. */
  ghost predicate WokeFirst(s: State, b: State, cpu: nat, w: Wq, resched: bool, err: int)
    requires OnCpu(s, cpu) && w in s.waitqs && s.waitqs[w].list != []
  {
    var t, h := s.current[cpu], s.waitqs[w].list[0];
    && h in s.threads && s.threads[h].priority < |s.runq| && s.threads[t].priority < |s.runq| && cpu < |b.current|
    && b.waitqs == s.waitqs[w := WaitQueue(s.waitqs[w].count - 1, s.waitqs[w].list[1..])]
    && var p, ph := s.threads[t].priority, s.threads[h].priority;
       if !resched then
         && b.current == s.current && b.runq == s.runq[ph := [h] + s.runq[ph]]
         && b.threads == s.threads[h := WokenUp(s.threads[h], err)]
       else
         && Switched(TwoReady(s, t, h, w, err), b, cpu)
         && (b.current[cpu] == h <==> MayRun(s.threads, h, cpu) && ph >= p && NoneFrom(s.threads, s.runq, cpu, ph + 1))
  }

  /** The caller at the head of its run queue, and then the woken thread at the head of its own. */
  ghost function TwoReady(s: State, t: Tid, h: Tid, w: Wq, err: int): State
    requires t in s.threads && h in s.threads && w in s.waitqs && s.waitqs[w].list != []
    requires s.threads[t].priority < |s.runq| && s.threads[h].priority < |s.runq|
  {
    var p, ph := s.threads[t].priority, s.threads[h].priority;
    var q := s.runq[p := [t] + s.runq[p]];
    s.(threads := s.threads[t := s.threads[t].(state := Ready)][h := WokenUp(s.threads[h], err)],
       runq := q[ph := [h] + q[ph]],
       waitqs := s.waitqs[w := WaitQueue(s.waitqs[w].count - 1, s.waitqs[w].list[1..])])
  }

  /** All waiters of w woken, those of each priority before their equals and in the order they waited. */
  ghost function AllReady(s: State, w: Wq, err: int): State
    requires w in s.waitqs
  {
    s.(threads := map u | u in s.threads ::
                    if s.threads[u].waitq == Some(w) then WokenUp(s.threads[u], err) else s.threads[u],
       runq := seq(|s.runq|, p requires 0 <= p < |s.runq| => OfPriority(s, s.waitqs[w].list, p) + s.runq[p]),
       waitqs := s.waitqs[w := WaitQueue(0, [])])
  }

  /** wait_queue_wake_all on a queue with waiters. */
  ghost predicate WokeAll(s: State, b: State, cpu: nat, w: Wq, resched: bool, err: int)
    requires OnCpu(s, cpu) && w in s.waitqs && s.waitqs[w].list != []
  {
    var t := s.current[cpu];
    var p := s.threads[t].priority;
    && p < |s.runq|
    && if !resched then b == AllReady(s, w, err).(bitmap := b.bitmap)
       else Switched(AllReady(s.(threads := s.threads[t := s.threads[t].(state := Ready)],
                                 runq := s.runq[p := [t] + s.runq[p]]), w, err), b, cpu)
  }

  /** thread_exit: dead, and whoever joins a joinable thread is woken with answer 0. */
  ghost predicate Exited(s: State, b: State, cpu: nat)
    requires OnCpu(s, cpu) && s.threads[s.current[cpu]].retq in s.waitqs
  {
    var t := s.current[cpu];
    var s1 := s.(threads := s.threads[t := s.threads[t].(state := Death)]);
    && Switched(if s.threads[t].detached then s1 else AllReady(s1, s.threads[t].retq, 0), b, cpu)
    && t in b.threads && b.threads[t].state == Death
    && (!s.threads[t].detached ==>
          forall u :: u in s.threads && s.threads[u].waitq == Some(s.threads[t].retq) ==>
            && u in b.threads && b.threads[u].waitq == None && b.threads[u].blockRet == 0
            && (b.threads[u].state == Ready || b.threads[u].state == Running))
  }

  /** thread_unblock_from_wait_queue on a blocked thread: only it leaves the queue, and it goes before its equals. */
  ghost predicate WokeOnly(s: State, b: State, t: Tid, err: int)
    requires t in s.threads
  {
    var th := s.threads[t];
    && th.waitq.Some? && th.waitq.value in s.waitqs && th.priority < |s.runq|
    && var w := th.waitq.value;
       exists i: nat :: i < |s.waitqs[w].list| && s.waitqs[w].list[i] == t
         && b == s.(threads := s.threads[t := WokenUp(th, err)],
                    runq := s.runq[th.priority := [t] + s.runq[th.priority]],
                    waitqs := s.waitqs[w := WaitQueue(s.waitqs[w].count - 1,
                                                      s.waitqs[w].list[..i] + s.waitqs[w].list[i + 1..])],
                    bitmap := b.bitmap)
  }

  lemma TimesOutIs(s: State, t: Tid)
    requires Inv(s) && t in s.threads && s.threads[t].state == Blocked
    ensures WokeOnly(s, DoTimesOut(s, t), t, -13)
  {
    assert ThreadOk(s, t);
    var w := s.threads[t].waitq.value;
    var q := s.waitqs[w].list;
    assert t in q;
    var i: nat :| i < |q| && q[i] == t;
    WithoutAt(q, i);
    WakeShape(s, w, t, ERR_TIMED_OUT);
  }

  lemma WakeOneIs(s: State, cpu: nat, w: Wq, resched: bool, err: int)
    requires Inv(s) && OnCpu(s, cpu) && w in s.waitqs && s.waitqs[w].list != [] && (resched ==> BusyCpu(s, cpu))
    ensures WokeFirst(s, DoWakeOne(s, cpu, w, resched, err), cpu, w, resched, err)
  {
    hide Base, Hands, Switch, Wake, Without;
    RunningFacts(s, cpu);
    FirstWaiter(s, cpu, w);
    var t, h := s.current[cpu], s.waitqs[w].list[0];
    if resched {
      var q := s.threads[t].quantum;
      StepBackLeaves(s, cpu, q, true);
      var s1 := StepBack(s, cpu, q, true);
      WakeLeaves(s1, cpu, w, h, err);
      WakeShape(s1, w, h, err);
      var a := Wake(s1, h, err);
      SwitchIs(a, cpu);
      var b := Switch(a, cpu);
      SameButBitmap(a, TwoReady(s, t, h, w, err), b, cpu);
      FirstRuns(s, TwoReady(s, t, h, w, err), b, cpu, w, err);
    } else {
      WakeLeaves(s, cpu, w, h, err);
      WakeShape(s, w, h, err);
    }
  }

  /** The first waiter, as the run queues know it. */
  lemma FirstWaiter(s: State, cpu: nat, w: Wq)
    requires Inv(s) && cpu < |s.current| && w in s.waitqs && s.waitqs[w].list != []
    ensures var h := s.waitqs[w].list[0];
            && h in s.threads && s.threads[h].priority < |s.runq| == NUM_PRIORITIES && h != s.current[cpu]
            && cpu < |s.idle| && h != s.idle[cpu] && s.threads[h].waitq == Some(w)
            && Without(s.waitqs[w].list, h) == s.waitqs[w].list[1..]
            && (forall p :: 0 <= p < NUM_PRIORITIES ==> h !in s.runq[p])
  {
    var q := s.waitqs[w].list;
    var h := q[0];
    assert h in q;
    Waiter(s, w, h);
    WithoutAt(q, 0);
    assert q[..0] + q[1..] == q[1..];
    assert ThreadOk(s, h);
    forall p | 0 <= p < NUM_PRIORITIES
      ensures h !in s.runq[p]
    {
      assert !Queued(s, h, p);
    }
  }

  lemma FirstRuns(s: State, a: State, b: State, cpu: nat, w: Wq, err: int)
    requires Inv(s) && BusyCpu(s, cpu) && w in s.waitqs && s.waitqs[w].list != []
    requires var h, t := s.waitqs[w].list[0], s.current[cpu];
             && h in s.threads && s.threads[h].priority < |s.runq| && s.threads[t].priority < |s.runq|
             && a == TwoReady(s, t, h, w, err)
    requires Switched(a, b, cpu)
    ensures var h := s.waitqs[w].list[0];
            b.current[cpu] == h <==>
              && MayRun(s.threads, h, cpu) && s.threads[h].priority >= s.threads[s.current[cpu]].priority
              && NoneFrom(s.threads, s.runq, cpu, s.threads[h].priority + 1)
  {
    hide Inv, Hands;
    RunningFacts(s, cpu);
    FirstWaiter(s, cpu, w);
    var t, h := s.current[cpu], s.waitqs[w].list[0];
    var p, ph, n := s.threads[t].priority, s.threads[h].priority, b.current[cpu];
    var q := s.runq[p := [t] + s.runq[p]];
    HandsAlike(a.threads, s.threads, a.runq, s.idle, cpu, n, b.runq);
    if MayRun(s.threads, h, cpu) {
      HeadTurnIs(s.threads, q, s.idle, cpu, h, n, b.runq);
      assert q[p][0] == t && Offers(s.threads, q[p], cpu);
      assert forall i :: 0 <= i < |q| && i != p ==> q[i] == s.runq[i];
    } else {
      OnlyWhoMay(s.threads, a.runq, s.idle, cpu, n, b.runq);
    }
  }

  lemma OnlyWhoMay(threads: map<Tid, Thread>, runq: seq<seq<Tid>>, idle: seq<Tid>, cpu: nat, n: Tid,
                   runq': seq<seq<Tid>>)
    requires Hands(threads, runq, idle, cpu, n, runq')
    ensures n == idle[cpu] || MayRun(threads, n, cpu)
  {
  }

  /** Waking them all, from the tail, comes to AllReady. */
  lemma AllReadyIs(s: State, w: Wq, err: int)
    requires Base(s) && w in s.waitqs
    ensures WakeFromTail(s, w, err) == AllReady(s, w, err).(bitmap := WakeFromTail(s, w, err).bitmap)
  {
    hide Base, WakeFromTail, OfPriority;
    WakeFromTailKeeps(s, w, err);
    var s', r := WakeFromTail(s, w, err), AllReady(s, w, err);
    assert |s.runq| == NUM_PRIORITIES by {
      Sizes(s);
    }
    forall p | 0 <= p < NUM_PRIORITIES
      ensures |s'.runq| == NUM_PRIORITIES && s'.runq[p] == r.runq[p]
    {
      WakeAllOrder(s, w, err, p);
    }
    WakeAllOrder(s, w, err, 0);
    assert s'.runq == r.runq;
    assert s'.threads == r.threads;
  }

  lemma Sizes(s: State)
    requires Base(s)
    ensures |s.runq| == NUM_PRIORITIES
  {
  }

  lemma WakeAllIs(s: State, cpu: nat, w: Wq, resched: bool, err: int)
    requires Inv(s) && OnCpu(s, cpu) && w in s.waitqs && s.waitqs[w].list != [] && (resched ==> BusyCpu(s, cpu))
    ensures WokeAll(s, DoWakeAll(s, cpu, w, resched, err), cpu, w, resched, err)
  {
    hide Base, Hands, Switch, WakeFromTail, AllReady, Switched;
    RunningFacts(s, cpu);
    if resched {
      var t := s.current[cpu];
      var q, p := s.threads[t].quantum, s.threads[t].priority;
      StepBackLeaves(s, cpu, q, true);
      var s1 := StepBack(s, cpu, q, true);
      WakeFromTailLeaves(s1, cpu, w, err);
      AllReadyIs(s1, w, err);
      var a := WakeFromTail(s1, w, err);
      SwitchIs(a, cpu);
      var s2 := s.(threads := s.threads[t := s.threads[t].(state := Ready)], runq := s.runq[p := [t] + s.runq[p]]);
      assert s2 == s1.(bitmap := s2.bitmap);
      AllReadyAlike(s1, s2, w, err);
      SameButBitmap(a, AllReady(s2, w, err), Switch(a, cpu), cpu);
    } else {
      AllReadyIs(s, w, err);
    }
  }

  lemma AllReadyAlike(s: State, s': State, w: Wq, err: int)
    requires w in s.waitqs && s' == s.(bitmap := s'.bitmap)
    ensures AllReady(s', w, err) == AllReady(s, w, err).(bitmap := s'.bitmap)
  {
    forall p
      ensures OfPriority(s', s.waitqs[w].list, p) == OfPriority(s, s.waitqs[w].list, p)
    {
      OfPriorityAlike(s, s', s.waitqs[w].list, p);
    }
    assert AllReady(s', w, err).runq == AllReady(s, w, err).runq;
  }

  lemma {:induction false} OfPriorityAlike(s: State, s': State, q: seq<Tid>, p: nat)
    requires s'.threads == s.threads
    ensures OfPriority(s', q, p) == OfPriority(s, q, p)
  {
    if q != [] {
      OfPriorityAlike(s, s', q[1..], p);
    }
  }

  lemma ExitIs(s: State, cpu: nat)
    requires Inv(s) && BusyCpu(s, cpu)
    ensures s.threads[s.current[cpu]].retq in s.waitqs && Exited(s, DoExit(s, cpu), cpu)
  {
    hide Base, Hands, Switch, WakeFromTail, AllReady, Switched;
    var t := s.current[cpu];
    Retq(s, t);
    if s.threads[t].detached {
      var s1 := SetThread(s, t, s.threads[t].(state := Death));
      GoneLeaves(s, cpu, Death);
      SwitchIs(s1, cpu);
      ChosenReady(s1, cpu);
      SwitchLeaves(s1, Switch(s1, cpu), cpu);
    } else {
      JoinableExit(s, cpu);
    }
  }

  lemma JoinableExit(s: State, cpu: nat)
    requires Inv(s) && BusyCpu(s, cpu) && !s.threads[s.current[cpu]].detached
    ensures s.threads[s.current[cpu]].retq in s.waitqs && Exited(s, DoExit(s, cpu), cpu)
  {
    hide Base, Hands, Switch, WakeFromTail, AllReady, Switched, RunningIsCurrent, MayRun, OfPriority, SameRunning;
    RunningFacts(s, cpu);
    var t := s.current[cpu];
    var s1, w := SetThread(s, t, s.threads[t].(state := Death)), s.threads[t].retq;
    GoneLeaves(s, cpu, Death);
    Retq(s, t);
    RunningWaits(s, t);
    WakeFromTailLeaves(s1, cpu, w, NO_ERROR);
    AllReadyIs(s1, w, NO_ERROR);
    var a := WakeFromTail(s1, w, NO_ERROR);
    var b := Switch(a, cpu);
    SwitchIs(a, cpu);
    ChosenReady(a, cpu);
    assert a.threads[t].state == Death by {
      WakeFromTailKeeps(s1, w, NO_ERROR);
    }
    SameButBitmap(a, AllReady(s1, w, 0), b, cpu);
    JoinersReady(s1, AllReady(s1, w, 0), b, cpu, w);
  }

  /** The thread chosen was ready. */
  lemma ChosenReady(s: State, cpu: nat)
    requires Leaving(s, cpu)
    ensures cpu < |Switch(s, cpu).current|
    ensures var n := Switch(s, cpu).current[cpu]; n in s.threads && s.threads[n].state == Ready
  {
    hide Base;
    CpuFacts(s, cpu);
    TopFacts(s, cpu);
  }

  lemma RunningWaits(s: State, t: Tid)
    requires Base(s) && t in s.threads && s.threads[t].state == Running
    ensures s.threads[t].waitq == None
  {
    assert ThreadOk(s, t);
  }

  lemma Retq(s: State, t: Tid)
    requires Base(s) && t in s.threads
    ensures s.threads[t].retq in s.waitqs
  {
    assert ThreadOk(s, t);
  }

  /** A thread that is not chosen keeps its record, but for the cpu it ran on. */
  lemma SwitchLeaves(a: State, b: State, cpu: nat)
    requires Switched(a, b, cpu)
    ensures b.threads.Keys == a.threads.Keys
    ensures forall u :: u in a.threads ==>
              && b.threads[u].waitq == a.threads[u].waitq && b.threads[u].blockRet == a.threads[u].blockRet
              && b.threads[u].state == (if u == b.current[cpu] then Running else a.threads[u].state)
  {
    hide Hands;
    assert b.current[cpu] in a.threads by {
      HandsKnown(a.threads, a.runq, a.idle, cpu, b.current[cpu], b.runq);
    }
  }

  lemma HandsKnown(threads: map<Tid, Thread>, runq: seq<seq<Tid>>, idle: seq<Tid>, cpu: nat, n: Tid,
                   runq': seq<seq<Tid>>)
    requires Hands(threads, runq, idle, cpu, n, runq')
    ensures n in threads
  {
  }

  lemma JoinersReady(s: State, a: State, b: State, cpu: nat, w: Wq)
    requires w in s.waitqs && a == AllReady(s, w, 0) && Switched(a, b, cpu)
    ensures b.threads.Keys == s.threads.Keys
    ensures forall u :: u in s.threads && s.threads[u].waitq == Some(w) ==>
              && b.threads[u].waitq == None && b.threads[u].blockRet == 0
              && (b.threads[u].state == Ready || b.threads[u].state == Running)
    ensures forall u :: u in s.threads && s.threads[u].waitq != Some(w) ==>
              b.threads[u].state == if u == b.current[cpu] then Running else s.threads[u].state
  {
    hide Switched, OfPriority;
    SwitchLeaves(a, b, cpu);
  }
}
