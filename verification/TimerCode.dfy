/** insert_timer_in_queue and timer_tick of kernel/timer.c. */
module TimerCode {
  import opened Lists
  import opened Timer

  /** The clock before tick k of a run. */
  function TimeBefore(start: nat, times: seq<nat>, k: nat): nat
    requires k <= |times|
  {
    if k == 0 then start else times[k - 1]
  }

  /** The firings of a tick: in order, and only of timers that were due. */
  ghost predicate FiredDue(now: nat, log: seq<Entry>)
  {
    Sorted(now, log) && forall e :: e in log ==> Diff(e.time, now) <= 0
  }

  /** The clock moved on by step, and log is what fired then. */
  ghost predicate Ticked(before: nat, step: nat, now: nat, log: seq<Entry>)
  {
    now == (before + step) % WRAP && FiredDue(now, log)
  }

  class TimerQueue {
    var queue: seq<Entry>
    /** Insertions so far. */
    var next: nat

    ghost predicate Valid(now: nat, lo: int)
      reads this
    {
      QueueOk(now, lo, queue, next)
    }

    constructor ()
      ensures queue == [] && forall now: nat, lo :: now < WRAP ==> Valid(now, lo)
    {
      queue, next := [], 0;
    }

    method InsertTimer(id: nat, time: nat, period: nat) returns (ghost at: nat)
      modifies this
      ensures next == old(next) + 1
      ensures PlacedAt(old(queue), Entry(id, time, period, old(next)), at)
      ensures queue == Insert(old(queue), at, Entry(id, time, period, old(next)))
    {
      var y := Entry(id, time, period, next);
      var i: nat := 0;
      while i < |queue| && !(Diff(queue[i].time, time) > 0)
        invariant i <= |queue| && queue == old(queue) && next == old(next)
        invariant forall j :: 0 <= j < i ==> Diff(queue[j].time, time) <= 0
      {
        i := i + 1;
      }
      at := i;
      queue := queue[..i] + [y] + queue[i..];
      next := next + 1;
    }

    /** timer_tick. cancels(id, n) says that the callback of timer id cancels it on its n-th firing of this tick;
        the result lists the firings. */
    method Tick(now: nat, ghost lo: int, cancels: (nat, nat) -> bool) returns (log: seq<Entry>)
      requires Valid(now, lo)
      modifies this
      ensures Valid(now, lo) && Sorted(now, log) && LogStages(now, cancels, old(queue), log)
      ensures queue != [] ==> Diff(queue[0].time, now) > 0
      ensures forall e :: e in old(queue) ==> Settled(now, e, cancels, queue, Fires(log, e.id))
      ensures AllKnown(old(queue), queue) && AllKnown(old(queue), log)
      ensures forall j :: 0 <= j < |log| ==> Diff(log[j].time, now) <= 0
    {
      log := [];
      ghost var was := queue;
      TickStarts(now, lo, cancels, was, next);
      while queue != [] && !(Diff(now, queue[0].time) < 0)
        invariant TickInv(now, lo, cancels, was, queue, log, next)
        decreases Load(now, queue)
      {
        DiffIs(now, lo, queue[0].time, queue[0].time);
        log := Fire(now, lo, cancels, was, log);
      }
      if queue != [] {
        DiffIs(now, lo, queue[0].time, queue[0].time);
      }
      forall e | e in was
        ensures Settled(now, e, cancels, queue, Fires(log, e.id))
      {
        TickEnds(now, lo, cancels, was, queue, log, next, e);
      }
    }

    /** Ticks one after another, steps[k] after the one before, the first after `start`: with timers and periods at
        most `ahead` and ticks at most `gap` apart, together no more than half the clock range, every one of them
        finds the queue in order, wherever the clock wraps. */
    method RunTicks(start: nat, steps: seq<nat>, ghost ahead: nat, ghost gap: nat, cancels: (nat, nat, nat) -> bool)
      returns (times: seq<nat>, logs: seq<seq<Entry>>)
      requires 0 < gap < HALF && ahead + gap <= HALF && forall k :: 0 <= k < |steps| ==> steps[k] <= gap
      requires Valid(start, 1 - gap) && NoneDue(start, queue) && AllWithin(start, queue, ahead)
      modifies this
      ensures |times| == |logs| == |steps|
      ensures forall k :: 0 <= k < |steps| ==> Ticked(TimeBefore(start, times, k), steps[k], times[k], logs[k])
      ensures var end := TimeBefore(start, times, |steps|);
              Valid(end, 1 - gap) && NoneDue(end, queue) && AllWithin(end, queue, ahead)
    {
      hide QueueOk, FiredDue, AllWithin, NoneDue;
      times, logs := [], [];
      var now := start;
      for k := 0 to |steps|
        invariant |times| == |logs| == k && now == TimeBefore(start, times, k)
        invariant Valid(now, 1 - gap) && NoneDue(now, queue) && AllWithin(now, queue, ahead)
        invariant forall j :: 0 <= j < k ==> Ticked(TimeBefore(start, times, j), steps[j], times[j], logs[j])
      {
        ghost var before, had := now, times;
        NextTickOk(now, queue, next, steps[k], ahead, gap);
        now := (now + steps[k]) % WRAP;
        var log := TickWithin(now, gap, ahead, (id: nat, n: nat) => cancels(k, id, n));
        times, logs := times + [now], logs + [log];
        assert Ticked(before, steps[k], now, log);
        assert forall j :: 0 <= j <= k ==> TimeBefore(start, times, j) == TimeBefore(start, had, j);
      }
    }

    method TickWithin(now: nat, ghost gap: nat, ghost ahead: nat, cancels: (nat, nat) -> bool) returns (log: seq<Entry>)
      requires Valid(now, 1 - gap) && AllWithin(now, queue, ahead)
      modifies this
      ensures Valid(now, 1 - gap) && NoneDue(now, queue) && AllWithin(now, queue, ahead)
      ensures FiredDue(now, log)
    {
      ghost var was := queue;
      log := Tick(now, 1 - gap, cancels);
      forall i | 0 <= i < |queue|
        ensures Diff(queue[i].time, now) > 0
        ensures Diff(queue[i].time, now) <= ahead && queue[i].period <= ahead
      {
        assert Queued(was, queue[i].id);
        var j :| 0 <= j < |was| && was[j].id == queue[i].id;
        assert was[j] in was;
        StaysWithin(now, 1 - gap, was[j], cancels, queue, Fires(log, was[j].id), i, ahead);
      }
    }

    /** Put a periodic timer that has just fired back, one period on or one period from now. */
    method PutBack(now: nat, timer: Entry) returns (ghost at: nat)
      modifies this
      ensures next == old(next) + 1
      ensures PlacedAt(old(queue), Again(now, timer, old(next)), at)
      ensures queue == Insert(old(queue), at, Again(now, timer, old(next)))
    {
      var time := (timer.time + timer.period) % WRAP;
      if Diff(time, now) < 0 {
        time := (now + timer.period) % WRAP;
      }
      at := InsertTimer(timer.id, time, timer.period);
    }

    /** One turn: take the head off the queue, call it, and put it back if it is periodic and still wants to be. */
    method Fire(now: nat, ghost lo: int, cancels: (nat, nat) -> bool, ghost was: seq<Entry>, log: seq<Entry>)
      returns (r: seq<Entry>)
      requires TickInv(now, lo, cancels, was, queue, log, next) && queue != [] && Diff(queue[0].time, now) <= 0
      modifies this
      ensures TickInv(now, lo, cancels, was, queue, r, next) && r == log + [old(queue)[0]]
      ensures Load(now, queue) < old(Load(now, queue))
    {
      hide LogOk, LogStages, AllTrack, AllKnown, Sorted, Diff;
      var timer := queue[0];
      ghost var q, n := queue, next;
      queue := queue[1..];
      var periodic := timer.period > 0;
      var cancelled := cancels(timer.id, Fires(log, timer.id) + 1);
      r := log + [timer];
      if periodic && !cancelled {
        ghost var at := PutBack(now, timer);
        FireAgain(now, lo, cancels, was, q, log, n, at);
        LoadLess(now, lo, q, n, at);
      } else {
        FireDrop(now, lo, cancels, was, q, log, n);
        LoadLess(now, lo, q, n, 0);
      }
    }
  }
}
