/** kernel/thread.c as a state machine: threads, priority run queues with their bitmap, wait queues and
    the thread each cpu is running.  Every operation runs under the thread lock, so each is one step. */
module Sched {
  import opened Bits
  import opened Lists
  import opened Wrappers

  type Tid = nat
  type Wq = nat

  const NUM_PRIORITIES: nat := 32
  const IDLE_PRIORITY: int := 0
  const HIGHEST_PRIORITY: int := 31
  const QUANTUM: int := 5

  const NO_ERROR: int := 0
  const ERR_TIMED_OUT: int := -13
  const ERR_NOT_BLOCKED: int := -12
  const INFINITE_TIME: nat := 0xffff_ffff

  datatype RunState = Suspended | Ready | Running | Blocked | Sleeping | Death

  /** `pinned` is a cpu or negative; `timed` says that a timeout timer is armed for the wait the thread
      is in; `retq` is the queue of threads joining it. */
  datatype Thread = Thread(
    priority: nat, state: RunState, quantum: int, idle: bool, realTime: bool, detached: bool,
    pinned: int, currCpu: int, waitq: Option<Wq>, blockRet: int, timed: bool, retq: Wq)

  datatype WaitQueue = WaitQueue(count: int, list: seq<Tid>)

  datatype State = State(
    threads: map<Tid, Thread>, runq: seq<seq<Tid>>, bitmap: nat,
    waitqs: map<Wq, WaitQueue>, current: seq<Tid>, idle: seq<Tid>)

  // ---------- the invariant ----------

  /** Bit p is set iff run queue p is non-empty; no thread is queued twice. */
  ghost predicate Bitmap(s: State)
  {
    && |s.runq| == NUM_PRIORITIES && Narrow(s.bitmap, NUM_PRIORITIES)
    && forall p :: 0 <= p < NUM_PRIORITIES ==> NoDup(s.runq[p]) && (Bit(s.bitmap, p) <==> s.runq[p] != [])
  }

  ghost predicate Queued(s: State, t: Tid, p: nat)
  {
    t in s.threads && s.threads[t].state == Ready && !s.threads[t].idle && s.threads[t].priority == p
  }

  /** Run queue p holds exactly the ready threads of priority p, idle threads apart. */
  ghost predicate ReadyQueued(s: State)
    requires |s.runq| == NUM_PRIORITIES
  {
    forall p, t :: 0 <= p < NUM_PRIORITIES ==> (t in s.runq[p] <==> Queued(s, t, p))
  }

  /** Each wait queue lists exactly the threads that point to it, once each, and counts them. */
  ghost predicate Waiting(s: State)
  {
    && (forall w :: w in s.waitqs ==> NoDup(s.waitqs[w].list) && s.waitqs[w].count == |s.waitqs[w].list|)
    && (forall w, t :: w in s.waitqs ==>
          (t in s.waitqs[w].list <==> t in s.threads && s.threads[t].waitq == Some(w)))
  }

  ghost predicate ThreadOk(s: State, t: Tid)
    requires t in s.threads
  {
    var th := s.threads[t];
    && th.priority < NUM_PRIORITIES
    && (th.state == Blocked <==> th.waitq.Some?)
    && (th.waitq.Some? ==> th.waitq.value in s.waitqs)
    && th.retq in s.waitqs
    && (th.idle <==> t in s.idle)
    && (th.idle ==> th.state == Ready || th.state == Running)
  }

  ghost predicate ThreadsOk(s: State)
  {
    forall t :: t in s.threads ==> ThreadOk(s, t)
  }

  /** Each cpu has its own current and its own idle thread, and runs no thread pinned elsewhere. */
  ghost predicate Cpus(s: State)
  {
    && |s.current| == |s.idle| && NoDup(s.current) && NoDup(s.idle)
    && (forall c :: 0 <= c < |s.idle| ==> s.idle[c] in s.threads && s.threads[s.idle[c]].pinned == c)
    && (forall c :: 0 <= c < |s.current| ==> CpuOk(s, c))
    && (forall t :: t in s.threads && t !in s.current ==> s.threads[t].currCpu == -1)
  }

  ghost predicate CpuOk(s: State, c: nat)
    requires |s.current| == |s.idle| && c < |s.current|
  {
    && s.current[c] in s.threads
    && (var th := s.threads[s.current[c]];
        && th.currCpu == c && (th.pinned < 0 || th.pinned == c)
        && (th.idle ==> s.current[c] == s.idle[c]))
  }

  ghost predicate Base(s: State)
  {
    Bitmap(s) && ReadyQueued(s) && Waiting(s) && ThreadsOk(s) && Cpus(s)
  }

  /** The running threads are exactly the current ones. */
  ghost predicate RunningIsCurrent(s: State)
  {
    forall t :: t in s.threads ==> (s.threads[t].state == Running <==> t in s.current)
  }

  /** The global invariant. */
  ghost predicate Inv(s: State)
  {
    Base(s) && RunningIsCurrent(s)
  }

  /** The same just before a reschedule: the current thread of cpu c has left the running state. */
  ghost predicate Leaving(s: State, c: nat)
  {
    && Base(s) && c < |s.current|
    && (forall t :: t in s.threads ==> (s.threads[t].state == Running <==> t in s.current && t != s.current[c]))
  }

  // ---------- the moves a thread makes ----------

  function SetThread(s: State, t: Tid, th: Thread): State
  {
    s.(threads := s.threads[t := th])
  }

  /** insert_in_run_queue_head and insert_in_run_queue_tail */
  function EnterQueue(s: State, t: Tid, head: bool): State
    requires t in s.threads && s.threads[t].priority < |s.runq|
  {
    var p := s.threads[t].priority;
    s.(runq := s.runq[p := if head then [t] + s.runq[p] else s.runq[p] + [t]], bitmap := WithBit(s.bitmap, p, true))
  }

  /** Thread t becomes ready, as record th says, and is queued. */
  function MakeReady(s: State, t: Tid, th: Thread, head: bool): State
    requires th.priority < |s.runq|
  {
    EnterQueue(SetThread(s, t, th), t, head)
  }

  /** The record of a thread that becomes ready without having been blocked. */
  ghost predicate Readied(th: Thread, th': Thread)
  {
    th' == th.(state := Ready, priority := th'.priority, quantum := th'.quantum) && th'.priority < NUM_PRIORITIES
  }

  lemma MakeReadyKeeps(s: State, t: Tid, th: Thread, head: bool)
    requires Base(s) && t in s.threads && !s.threads[t].idle
    requires s.threads[t].state != Ready && s.threads[t].state != Blocked && Readied(s.threads[t], th)
    ensures Base(MakeReady(s, t, th, head))
  {
    var p, s' := th.priority, MakeReady(s, t, th, head);
    assert ThreadOk(s, t);
    ReadyInserted(s, s', t, p, head);
    WaitingSame(s, s');
    forall u | u in s'.threads ensures ThreadOk(s', u) {
      assert ThreadOk(s, u);
    }
    CpusSame(s, s');
  }

  /** The run queues after thread t, until now in none of them, is entered in queue p. */
  lemma ReadyInserted(s: State, s': State, t: Tid, p: nat, head: bool)
    requires Bitmap(s) && ReadyQueued(s) && p < NUM_PRIORITIES && t in s.threads && s.threads[t].state != Ready
    requires s'.runq == s.runq[p := if head then [t] + s.runq[p] else s.runq[p] + [t]]
    requires s'.bitmap == WithBit(s.bitmap, p, true)
    requires t in s'.threads && s'.threads == s.threads[t := s'.threads[t]] && Queued(s', t, p)
    ensures Bitmap(s') && ReadyQueued(s')
  {
    assert !Queued(s, t, p) && t !in s.runq[p];
    NoDupAdd(s.runq[p], t);
    InsertBitmap(s, p, s'.runq[p], s');
    forall q, u | 0 <= q < NUM_PRIORITIES
      ensures u in s'.runq[q] <==> Queued(s', u, q)
    {
      assert u in s.runq[q] <==> Queued(s, u, q);
    }
  }

  /** Changing one run queue, and its bit with it. */
  lemma InsertBitmap(s: State, p: nat, q: seq<Tid>, s': State)
    requires Bitmap(s) && p < NUM_PRIORITIES && NoDup(q)
    requires s'.runq == s.runq[p := q] && s'.bitmap == WithBit(s.bitmap, p, q != [])
    ensures Bitmap(s')
  {
    forall k: nat ensures Bit(s'.bitmap, k) <==> if k == p then q != [] else Bit(s.bitmap, k) {
      WithBitIs(s.bitmap, p, q != [], k);
    }
  }

  /** Cpus only looks at fields that these moves leave alone. */
  lemma CpusSame(s: State, s': State)
    requires Cpus(s) && s'.current == s.current && s'.idle == s.idle && s'.threads.Keys == s.threads.Keys
    requires forall t :: t in s.threads ==>
      var a, b := s.threads[t], s'.threads[t]; a.pinned == b.pinned && a.currCpu == b.currCpu && a.idle == b.idle
    ensures Cpus(s')
  {
    forall c | 0 <= c < |s'.current| ensures CpuOk(s', c) {
      assert CpuOk(s, c);
    }
  }

  lemma WaitingSame(s: State, s': State)
    requires Waiting(s) && s'.waitqs == s.waitqs && s'.threads.Keys == s.threads.Keys
    requires forall t :: t in s.threads ==> s'.threads[t].waitq == s.threads[t].waitq
    ensures Waiting(s')
  {
    forall v, u | v in s'.waitqs
      ensures u in s'.waitqs[v].list <==> u in s'.threads && s'.threads[u].waitq == Some(v)
    {
      assert u in s.waitqs[v].list <==> u in s.threads && s.threads[u].waitq == Some(v);
    }
  }

  /** Thread t leaves its wait queue with return code err and goes to the head of its run queue: the
      common part of wait_queue_wake_one, wait_queue_wake_all and thread_unblock_from_wait_queue. */
  function Wake(s: State, t: Tid, err: int): State
    requires t in s.threads && s.threads[t].waitq.Some? && s.threads[t].waitq.value in s.waitqs
    requires s.threads[t].priority < |s.runq|
  {
    var w := s.threads[t].waitq.value;
    var wq := s.waitqs[w];
    MakeReady(s.(waitqs := s.waitqs[w := WaitQueue(wq.count - 1, Without(wq.list, t))]),
              t, s.threads[t].(state := Ready, waitq := None, blockRet := err), true)
  }

  lemma WakeKeeps(s: State, t: Tid, err: int)
    requires Base(s) && t in s.threads && s.threads[t].state == Blocked
    ensures ThreadOk(s, t) && Base(Wake(s, t, err))
    ensures forall u :: u in s.threads && u != t ==> Wake(s, t, err).threads[u] == s.threads[u]
  {
    hide ReadyQueued, Cpus, Waiting;
    assert ThreadOk(s, t);
    var th := s.threads[t];
    var p, w, s' := th.priority, th.waitq.value, Wake(s, t, err);
    ReadyInserted(s, s', t, p, true);
    WakeWaiting(s, t, w, s');
    forall u | u in s'.threads ensures ThreadOk(s', u) {
      assert ThreadOk(s, u);
    }
    CpusSame(s, s');
  }

  lemma WakeWaiting(s: State, t: Tid, w: Wq, s': State)
    requires Waiting(s) && t in s.threads && s.threads[t].waitq == Some(w) && w in s.waitqs
    requires s'.waitqs == s.waitqs[w := WaitQueue(s.waitqs[w].count - 1, Without(s.waitqs[w].list, t))]
    requires t in s'.threads && s'.threads == s.threads[t := s'.threads[t]] && s'.threads[t].waitq == None
    ensures Waiting(s')
  {
    assert t in s.waitqs[w].list;
    WithoutIs(s.waitqs[w].list, t);
    forall v, u | v in s'.waitqs
      ensures u in s'.waitqs[v].list <==> u in s'.threads && s'.threads[u].waitq == Some(v)
    {
      assert u in s.waitqs[v].list <==> u in s.threads && s.threads[u].waitq == Some(v);
    }
  }

  /** The running thread t goes to the tail of wait queue w: the blocking half of wait_queue_block. */
  function Block(s: State, t: Tid, w: Wq, timed: bool): State
    requires t in s.threads && w in s.waitqs
  {
    var wq := s.waitqs[w];
    SetThread(s.(waitqs := s.waitqs[w := WaitQueue(wq.count + 1, wq.list + [t])]),
              t, s.threads[t].(state := Blocked, waitq := Some(w), blockRet := NO_ERROR, timed := timed))
  }

  lemma BlockKeeps(s: State, t: Tid, w: Wq, timed: bool)
    requires Base(s) && t in s.threads && s.threads[t].state == Running && !s.threads[t].idle && w in s.waitqs
    ensures Base(Block(s, t, w, timed))
  {
    hide Waiting, Cpus;
    assert ThreadOk(s, t);
    var s' := Block(s, t, w, timed);
    BlockWaiting(s, t, w, timed);
    forall q, u | 0 <= q < NUM_PRIORITIES
      ensures u in s'.runq[q] <==> Queued(s', u, q)
    {
      assert u in s.runq[q] <==> Queued(s, u, q);
    }
    forall u | u in s'.threads ensures ThreadOk(s', u) {
      assert ThreadOk(s, u);
    }
    CpusSame(s, s');
  }

  lemma BlockWaiting(s: State, t: Tid, w: Wq, timed: bool)
    requires Waiting(s) && t in s.threads && s.threads[t].waitq == None && w in s.waitqs
    ensures Waiting(Block(s, t, w, timed))
  {
    var s' := Block(s, t, w, timed);
    assert t !in s.waitqs[w].list;
    NoDupAdd(s.waitqs[w].list, t);
    forall v, u | v in s'.waitqs
      ensures u in s'.waitqs[v].list <==> u in s'.threads && s'.threads[u].waitq == Some(v)
    {
      assert u in s.waitqs[v].list <==> u in s.threads && s.threads[u].waitq == Some(v);
    }
  }

  /** A thread that is in no queue changes to a state that needs none. */
  lemma UnqueuedKeeps(s: State, t: Tid, th: Thread)
    requires Base(s) && t in s.threads
    requires s.threads[t].state != Blocked && (s.threads[t].state != Ready || s.threads[t].idle)
    requires th.state != Blocked && (th.state != Ready || th.idle)
    requires th == s.threads[t].(state := th.state, quantum := th.quantum, blockRet := th.blockRet, timed := th.timed)
    requires th.idle ==> th.state == Ready || th.state == Running
    ensures Base(SetThread(s, t, th))
  {
    var s' := SetThread(s, t, th);
    assert ThreadOk(s, t);
    WaitingSame(s, s');
    forall q, u | 0 <= q < NUM_PRIORITIES
      ensures u in s'.runq[q] <==> Queued(s', u, q)
    {
      assert u in s.runq[q] <==> Queued(s, u, q);
    }
    forall u | u in s'.threads ensures ThreadOk(s', u) {
      assert ThreadOk(s, u);
    }
    CpusSame(s, s');
  }

  // ---------- choosing the next thread ----------

  /** Unpinned, or pinned to this cpu. */
  predicate Eligible(s: State, t: Tid, cpu: nat)
  {
    t in s.threads && (s.threads[t].pinned < 0 || s.threads[t].pinned == cpu)
  }

  /** Position of the first eligible thread of a queue, or its length. */
  function FirstFit(s: State, q: seq<Tid>, cpu: nat): (k: nat)
    ensures k <= |q|
    ensures forall j :: 0 <= j < k ==> !Eligible(s, q[j], cpu)
    ensures k < |q| ==> Eligible(s, q[k], cpu)
  {
    if q == [] then 0
    else if Eligible(s, q[0], cpu) then 0
    else 1 + FirstFit(s, q[1..], cpu)
  }

  /** The simple pick: look through the queues below priority p, highest first. */
  function PickBelow(s: State, cpu: nat, p: nat): Option<(nat, nat)>
    requires |s.runq| == NUM_PRIORITIES && p <= NUM_PRIORITIES
  {
    if p == 0 then None
    else
      var k := FirstFit(s, s.runq[p - 1], cpu);
      if k < |s.runq[p - 1]| then Some((p - 1, k)) else PickBelow(s, cpu, p - 1)
  }

  /** The state get_top_thread leaves: thread k of queue p taken out. */
  function Unqueue(s: State, p: nat, k: nat): State
    requires p < |s.runq| && k < |s.runq[p]|
  {
    var q := s.runq[p][..k] + s.runq[p][k + 1..];
    s.(runq := s.runq[p := q], bitmap := WithBit(s.bitmap, p, q != []))
  }

  /** get_top_thread: the thread chosen for a cpu, and the queues without it. */
  function Top(s: State, cpu: nat): (State, Tid)
    requires |s.runq| == NUM_PRIORITIES && cpu < |s.idle|
  {
    var x := PickBelow(s, cpu, NUM_PRIORITIES);
    PickBelowIs(s, cpu, NUM_PRIORITIES);
    if x.Some? then (Unqueue(s, x.value.0, x.value.1), s.runq[x.value.0][x.value.1]) else (s, s.idle[cpu])
  }

  lemma {:induction false} PickBelowIs(s: State, cpu: nat, p: nat)
    requires |s.runq| == NUM_PRIORITIES && p <= NUM_PRIORITIES
    ensures var x := PickBelow(s, cpu, p);
      && (x.Some? ==>
            && x.value.0 < p && x.value.1 < |s.runq[x.value.0]|
            && x.value.1 == FirstFit(s, s.runq[x.value.0], cpu))
      && (forall q :: (if x.Some? then x.value.0 + 1 else 0) <= q < p ==> FirstFit(s, s.runq[q], cpu) == |s.runq[q]|)
  {
    if p > 0 {
      PickBelowIs(s, cpu, p - 1);
    }
  }

  /** What the pick means.  Among the ready threads a cpu may run, it takes one of the highest priority,
      the first of those in queue order; it falls back on the idle thread exactly when there is none. */
  lemma TopIs(s: State, cpu: nat)
    requires Bitmap(s) && ReadyQueued(s) && cpu < |s.idle|
    requires forall c :: 0 <= c < |s.idle| ==> s.idle[c] in s.threads && s.threads[s.idle[c]].idle
    ensures var t := Top(s, cpu).1;
      && (t == s.idle[cpu] <==> forall u, p: nat :: Queued(s, u, p) && p < NUM_PRIORITIES ==> !Eligible(s, u, cpu))
      && (t != s.idle[cpu] ==>
            exists p: nat, k: nat :: p < NUM_PRIORITIES && k < |s.runq[p]| && s.runq[p][k] == t && Queued(s, t, p)
              && Eligible(s, t, cpu)
              && (forall j :: 0 <= j < k ==> !Eligible(s, s.runq[p][j], cpu))
              && (forall u, q: nat :: Queued(s, u, q) && p < q < NUM_PRIORITIES ==> !Eligible(s, u, cpu)))
  {
    PickBelowIs(s, cpu, NUM_PRIORITIES);
    var x := PickBelow(s, cpu, NUM_PRIORITIES);
    var low := if x.Some? then x.value.0 + 1 else 0;
    forall u, q: nat | Queued(s, u, q) && low <= q < NUM_PRIORITIES
      ensures !Eligible(s, u, cpu)
    {
      assert u in s.runq[q];
      assert FirstFit(s, s.runq[q], cpu) == |s.runq[q]|;
    }
    if x.Some? {
      var p, k := x.value.0, x.value.1;
      assert s.runq[p][k] in s.runq[p];
      assert Queued(s, s.runq[p][k], p);
      assert s.runq[p][k] != s.idle[cpu];
    }
  }

  /** Give the cpu to thread n. */
  function Dispatch(s: State, cpu: nat, n: Tid): State
    requires n in s.threads && cpu < |s.current| && s.current[cpu] in s.threads
  {
    var o := s.current[cpu];
    var th := s.threads[n].(state := Running);
    if n == o then SetThread(s, n, th) else
    var next := th.(quantum := if th.quantum <= 0 then QUANTUM else th.quantum, currCpu := cpu);
    s.(threads := s.threads[o := s.threads[o].(currCpu := -1)][n := next], current := s.current[cpu := n])
  }

  /** thread_resched: hand the cpu to the chosen thread. */
  function Resched(s: State, cpu: nat): State
    requires |s.runq| == NUM_PRIORITIES && cpu < |s.idle| && |s.current| == |s.idle|
    requires Top(s, cpu).1 in s.threads && s.current[cpu] in s.threads
  {
    Dispatch(Top(s, cpu).0, cpu, Top(s, cpu).1)
  }

  lemma UnqueueKeeps(s: State, p: nat, k: nat)
    requires Bitmap(s) && ReadyQueued(s) && p < NUM_PRIORITIES && k < |s.runq[p]|
    ensures var s' := Unqueue(s, p, k);
      && Bitmap(s')
      && forall q, u :: 0 <= q < NUM_PRIORITIES ==> (u in s'.runq[q] <==> Queued(s, u, q) && u != s.runq[p][k])
  {
    var s', t := Unqueue(s, p, k), s.runq[p][k];
    WithoutAt(s.runq[p], k);
    WithoutIs(s.runq[p], t);
    InsertBitmap(s, p, s'.runq[p], s');
    assert Queued(s, t, p) by { assert t in s.runq[p]; }
    forall q, u | 0 <= q < NUM_PRIORITIES
      ensures u in s'.runq[q] <==> Queued(s, u, q) && u != t
    {
      assert u in s.runq[q] <==> Queued(s, u, q);
    }
  }

  /** The chosen thread is known, not running anywhere, and may run here. */
  lemma TopFacts(s: State, cpu: nat)
    requires Leaving(s, cpu)
    ensures var n := Top(s, cpu).1;
      && n in s.threads && s.threads[n].state == Ready && Eligible(s, n, cpu)
      && (s.threads[n].idle <==> n == s.idle[cpu])
      && (n in s.current ==> n == s.current[cpu])
      && Bitmap(Top(s, cpu).0)
      && (forall q, u :: 0 <= q < NUM_PRIORITIES ==> (u in Top(s, cpu).0.runq[q] <==> Queued(s, u, q) && u != n))
  {
    PickBelowIs(s, cpu, NUM_PRIORITIES);
    var x := PickBelow(s, cpu, NUM_PRIORITIES);
    var n := Top(s, cpu).1;
    if x.Some? {
      var p, k := x.value.0, x.value.1;
      assert n in s.runq[p];
      UnqueueKeeps(s, p, k);
      assert ThreadOk(s, n);
      assert s.idle[cpu] in s.threads && ThreadOk(s, s.idle[cpu]);
    } else {
      assert ThreadOk(s, n);
      forall c | 0 <= c < |s.current| && s.current[c] == n ensures c == cpu {
        assert CpuOk(s, c);
      }
      assert forall q, u :: 0 <= q < NUM_PRIORITIES ==> (u in s.runq[q] <==> Queued(s, u, q));
    }
  }

  /** What a dispatch of n changes about the threads. */
  ghost predicate Dispatched(s: State, s': State, cpu: nat, n: Tid)
  {
    && cpu < |s.current| && s'.idle == s.idle && s'.waitqs == s.waitqs && s'.current == s.current[cpu := n]
    && s'.threads.Keys == s.threads.Keys
    && forall t :: t in s.threads ==>
         s'.threads[t] == s.threads[t].(
           state := if t == n then Running else s.threads[t].state,
           quantum := s'.threads[t].quantum,
           currCpu := if t == n then cpu else if t == s.current[cpu] then -1 else s.threads[t].currCpu)
  }

  lemma DispatchIs(s: State, cpu: nat, n: Tid)
    requires n in s.threads && cpu < |s.current| && s.current[cpu] in s.threads
    requires n == s.current[cpu] ==> s.threads[n].currCpu == cpu
    ensures Dispatched(s, Dispatch(s, cpu, n), cpu, n) && Dispatch(s, cpu, n).runq == s.runq
    ensures Dispatch(s, cpu, n).bitmap == s.bitmap
  {
  }

  /** A reschedule turns the half-way state back into one that meets the global invariant. */
  lemma ReschedKeeps(s: State, cpu: nat)
    requires Leaving(s, cpu)
    ensures Top(s, cpu).1 in s.threads && s.current[cpu] in s.threads && Inv(Resched(s, cpu))
  {
    TopFacts(s, cpu);
    assert CpuOk(s, cpu);
    var (s1, n) := Top(s, cpu);
    var s' := Resched(s, cpu);
    DispatchIs(s1, cpu, n);
    assert Dispatched(s, s', cpu, n);
    ReschedQueues(s, s', cpu, n);
    WaitingSame(s, s');
    ReschedThreads(s, s', cpu, n);
    ReschedCpus(s, s', cpu, n);
  }

  lemma ReschedQueues(s: State, s': State, cpu: nat, n: Tid)
    requires |s'.runq| == NUM_PRIORITIES && Dispatched(s, s', cpu, n)
    requires forall q, u :: 0 <= q < NUM_PRIORITIES ==> (u in s'.runq[q] <==> Queued(s, u, q) && u != n)
    ensures ReadyQueued(s')
  {
    forall q, u | 0 <= q < NUM_PRIORITIES
      ensures u in s'.runq[q] <==> Queued(s', u, q)
    {
      assert u in s'.runq[q] <==> Queued(s, u, q) && u != n;
    }
  }

  lemma ReschedThreads(s: State, s': State, cpu: nat, n: Tid)
    requires ThreadsOk(s) && n in s.threads && s.threads[n].state == Ready && Dispatched(s, s', cpu, n)
    ensures ThreadsOk(s')
  {
    forall u | u in s'.threads ensures ThreadOk(s', u) {
      assert ThreadOk(s, u);
    }
  }

  lemma ReschedCpus(s: State, s': State, cpu: nat, n: Tid)
    requires Leaving(s, cpu) && n in s.threads && s.threads[n].state == Ready && Eligible(s, n, cpu)
    requires s.threads[n].idle <==> n == s.idle[cpu]
    requires n in s.current ==> n == s.current[cpu]
    requires Dispatched(s, s', cpu, n)
    ensures Cpus(s') && RunningIsCurrent(s')
  {
    assert CpuOk(s, cpu);
    forall c | 0 <= c < |s'.current| ensures CpuOk(s', c) {
      assert CpuOk(s, c);
    }
    forall i, j | 0 <= i < j < |s'.current| ensures s'.current[i] != s'.current[j] {
      assert s.current[i] != s.current[j];
    }
    forall t | t in s'.threads
      ensures t in s'.current <==> t == n || (t in s.current && t != s.current[cpu])
    {
      CurrentAfter(s.current, cpu, n, t);
    }
  }

  lemma CurrentAfter(q: seq<Tid>, i: nat, n: Tid, t: Tid)
    requires NoDup(q) && i < |q| && (n in q ==> n == q[i])
    ensures t in q[i := n] <==> t == n || (t in q && t != q[i])
  {
    if t in q[i := n] && t != n {
      var c :| 0 <= c < |q| && q[i := n][c] == t;
      assert q[c] == t && q[c] != q[i];
    }
    if t == n {
      assert q[i := n][i] == n;
    } else if t in q && t != q[i] {
      var c :| 0 <= c < |q| && q[c] == t;
      assert q[i := n][c] == t;
    }
  }
}
