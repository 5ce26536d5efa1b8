/** The timer queue of one CPU, kernel/timer.c: 32-bit times compared by signed difference. */
module Timer {
  import opened Wrappers
  import opened Lists
  import opened Arith

  const WRAP: int := 0x1_0000_0000
  const HALF: int := 0x8000_0000

  /** A queued timer; stamp numbers the insertions. */
  datatype Entry = Entry(id: nat, time: nat, period: nat, stamp: nat)

  /** The int32_t difference of two times. */
  function Diff(a: nat, b: nat): int
  {
    var d := (a - b) % WRAP;
    if d >= HALF then d - WRAP else d
  }

  /** Times are seen from now, in a window of half the clock range that starts lo ticks from now. */
  predicate InWindow(now: nat, lo: int, t: nat)
  {
    t < WRAP && -HALF < lo <= 0 && lo <= Diff(t, now) < lo + HALF
  }

  lemma DiffOf(a: nat, b: nat, k: int, d: int)
    requires a - b == k * WRAP + d && -HALF <= d < HALF
    ensures Diff(a, b) == d
  {
    if d < 0 {
      SlotOf(a - b, k - 1, d + WRAP, WRAP);
    } else {
      SlotOf(a - b, k, d, WRAP);
    }
  }

  lemma DiffSplit(a: nat, b: nat) returns (k: int)
    ensures a - b == k * WRAP + Diff(a, b) && -HALF <= Diff(a, b) < HALF
  {
    var q, r := (a - b) / WRAP, (a - b) % WRAP;
    assert a - b == q * WRAP + r;
    k := if r >= HALF then q + 1 else q;
  }

  /** In the window, signed difference is subtraction. */
  lemma DiffIs(now: nat, lo: int, a: nat, b: nat)
    requires InWindow(now, lo, a) && InWindow(now, lo, b)
    ensures Diff(a, b) == Diff(a, now) - Diff(b, now)
    ensures Diff(now, b) == -Diff(b, now)
  {
    var i := DiffSplit(a, now);
    var j := DiffSplit(b, now);
    DiffOf(a, b, i - j, Diff(a, now) - Diff(b, now));
    DiffOf(now, b, -j, -Diff(b, now));
  }

  /** Adding d to a time moves it by d. */
  lemma DiffAdd(now: nat, t: nat, d: nat)
    requires -HALF <= Diff(t, now) + d < HALF
    ensures Diff((t + d) % WRAP, now) == Diff(t, now) + d
  {
    var k := DiffSplit(t, now);
    var m := (t + d) / WRAP;
    assert t + d == m * WRAP + (t + d) % WRAP;
    DiffOf((t + d) % WRAP, now, k - m, Diff(t, now) + d);
  }

  /** Earlier, or at the same time and queued first. */
  predicate Before(now: nat, a: Entry, b: Entry)
  {
    Diff(a.time, now) < Diff(b.time, now) || (Diff(a.time, now) == Diff(b.time, now) && a.stamp < b.stamp)
  }

  ghost predicate Sorted(now: nat, q: seq<Entry>)
  {
    forall i, j :: 0 <= i < j < |q| ==> Before(now, q[i], q[j])
  }

  /** A periodic timer's next time stays in the window. */
  predicate EntryOk(now: nat, lo: int, e: Entry)
  {
    InWindow(now, lo, e.time) && e.period < lo + HALF
  }

  ghost predicate QueueOk(now: nat, lo: int, q: seq<Entry>, next: nat)
  {
    && now < WRAP && Sorted(now, q)
    && (forall i :: 0 <= i < |q| ==> EntryOk(now, lo, q[i]) && q[i].stamp < next)
    && (forall i, j :: 0 <= i < j < |q| ==> q[i].id != q[j].id)
  }

  // ---------- rescheduling ----------

  /** The time a periodic timer is put back at. */
  function NextTime(now: nat, t: nat, period: nat): nat
  {
    var s := (t + period) % WRAP;
    if Diff(s, now) < 0 then (now + period) % WRAP else s
  }

  /** A due timer is put back strictly later; at now itself only if its period ends right there. */
  lemma NextTimeIs(now: nat, lo: int, t: nat, period: nat)
    requires now < WRAP && InWindow(now, lo, t) && Diff(t, now) <= 0 && 0 < period < lo + HALF
    ensures InWindow(now, lo, NextTime(now, t, period))
    ensures var d := Diff(NextTime(now, t, period), now);
            d == if Diff(t, now) + period < 0 then period else Diff(t, now) + period
  {
    DiffAdd(now, t, period);
    DiffOf(now, now, 0, 0);
    DiffAdd(now, now, period);
  }

  /** Whether the timer is still queued after firing n times in one tick, and for when. */
  function Stage(now: nat, e: Entry, cancels: (nat, nat) -> bool, n: nat): Option<nat>
  {
    if n == 0 then Some(e.time)
    else
      match Stage(now, e, cancels, n - 1)
      case None => None
      case Some(t) =>
        if e.period > 0 && !cancels(e.id, n) then Some(NextTime(now, t, e.period)) else None
  }

  predicate Due(now: nat, t: Option<nat>)
  {
    t.Some? && Diff(t.value, now) <= 0
  }

  /** How often a timer fires in one tick. */
  function Rounds(now: nat, e: Entry, cancels: (nat, nat) -> bool): nat
  {
    if !Due(now, Stage(now, e, cancels, 0)) then 0
    else if !Due(now, Stage(now, e, cancels, 1)) then 1
    else 2
  }

  /** One firing of a due timer takes it to the next stage. */
  lemma StageNext(now: nat, lo: int, e: Entry, cancels: (nat, nat) -> bool, n: nat, t: nat)
    requires now < WRAP && e.period < lo + HALF && Stage(now, e, cancels, n) == Some(t)
    requires InWindow(now, lo, t) && Diff(t, now) <= 0
    ensures Stage(now, e, cancels, n + 1) ==
            if e.period > 0 && !cancels(e.id, n + 1) then Some(NextTime(now, t, e.period)) else None
    ensures Stage(now, e, cancels, n + 1).Some? ==>
              && InWindow(now, lo, Stage(now, e, cancels, n + 1).value)
              && Diff(Stage(now, e, cancels, n + 1).value, now) ==
                 if Diff(t, now) + e.period < 0 then e.period else Diff(t, now) + e.period
  {
    if e.period > 0 {
      NextTimeIs(now, lo, t, e.period);
    }
  }

  /** A timer fires a second time in one tick exactly when it comes round at now itself, and never a third. */
  lemma Twice(now: nat, lo: int, e: Entry, cancels: (nat, nat) -> bool)
    requires now < WRAP && EntryOk(now, lo, e) && Diff(e.time, now) <= 0
    ensures Due(now, Stage(now, e, cancels, 1)) <==>
            Diff(e.time, now) + e.period == 0 && e.period > 0 && !cancels(e.id, 1)
    ensures Due(now, Stage(now, e, cancels, 1)) ==> Diff(Stage(now, e, cancels, 1).value, now) == 0
    ensures Due(now, Stage(now, e, cancels, 1)) ==> !Due(now, Stage(now, e, cancels, 2))
  {
    StageNext(now, lo, e, cancels, 0, e.time);
    if Due(now, Stage(now, e, cancels, 1)) {
      StageNext(now, lo, e, cancels, 1, Stage(now, e, cancels, 1).value);
    }
  }

  // ---------- the queue ----------

  /** Before the first timer scheduled later, so after those scheduled at the same time. */
  ghost predicate PlacedAt(q: seq<Entry>, y: Entry, at: nat)
  {
    && at <= |q| && (forall i :: 0 <= i < at ==> Diff(q[i].time, y.time) <= 0)
    && (at < |q| ==> Diff(q[at].time, y.time) > 0)
  }

  lemma PlacedOrder(now: nat, lo: int, q: seq<Entry>, next: nat, y: Entry, at: nat, i: nat)
    requires QueueOk(now, lo, q, next) && EntryOk(now, lo, y) && y.stamp == next && PlacedAt(q, y, at) && i < |q|
    ensures i < at ==> Before(now, q[i], y)
    ensures i >= at ==> Before(now, y, q[i])
  {
    DiffIs(now, lo, q[i].time, y.time);
    if i >= at {
      DiffIs(now, lo, q[at].time, y.time);
      assert at == i || Before(now, q[at], q[i]);
    }
  }

  /** Insertion keeps the queue sorted by time and then by insertion. */
  lemma InsertedOk(now: nat, lo: int, q: seq<Entry>, next: nat, y: Entry, at: nat)
    requires QueueOk(now, lo, q, next) && EntryOk(now, lo, y) && y.stamp == next && PlacedAt(q, y, at)
    requires forall i :: 0 <= i < |q| ==> q[i].id != y.id
    ensures QueueOk(now, lo, Insert(q, at, y), next + 1)
  {
    InsertIs(q, at, y);
    var t := Insert(q, at, y);
    forall i: nat | i < |q|
      ensures if i < at then Before(now, q[i], y) else Before(now, y, q[i])
    {
      PlacedOrder(now, lo, q, next, y, at, i);
    }
  }

  // ---------- what a tick has done so far ----------

  function Fires(log: seq<Entry>, id: nat): nat
  {
    if log == [] then 0 else Fires(log[..|log| - 1], id) + if log[|log| - 1].id == id then 1 else 0
  }

  ghost predicate Queued(q: seq<Entry>, id: nat)
  {
    exists i :: 0 <= i < |q| && q[i].id == id
  }

  /** Timer e of the queue before the tick: every firing was of a due stage, and it is queued for the next one. */
  ghost predicate Tracks(now: nat, e: Entry, cancels: (nat, nat) -> bool, q: seq<Entry>, n: nat)
  {
    && (forall k :: 0 <= k < n ==> Due(now, Stage(now, e, cancels, k)))
    && (Queued(q, e.id) <==> Stage(now, e, cancels, n).Some?)
    && (forall i :: 0 <= i < |q| && q[i].id == e.id ==>
                      Stage(now, e, cancels, n) == Some(q[i].time) && q[i].period == e.period)
  }

  /** The firings so far are in order, all due, and all before what is still queued. */
  ghost predicate LogOk(now: nat, log: seq<Entry>, q: seq<Entry>)
  {
    && Sorted(now, log) && (forall j :: 0 <= j < |log| ==> Diff(log[j].time, now) <= 0)
    && (forall j, i :: 0 <= j < |log| && 0 <= i < |q| ==> Before(now, log[j], q[i]))
  }

  /** Firing j of the log was at the time of the stage its timer had reached. */
  ghost predicate FiredAt(now: nat, e: Entry, cancels: (nat, nat) -> bool, log: seq<Entry>, j: nat)
    requires j < |log|
  {
    e.id == log[j].id ==> Stage(now, e, cancels, Fires(log[..j], e.id)) == Some(log[j].time)
  }

  ghost predicate LogStages(now: nat, cancels: (nat, nat) -> bool, was: seq<Entry>, log: seq<Entry>)
  {
    forall i, j: nat :: 0 <= i < |was| && j < |log| ==> FiredAt(now, was[i], cancels, log, j)
  }

  lemma StagesMore(now: nat, cancels: (nat, nat) -> bool, was: seq<Entry>, q: seq<Entry>, log: seq<Entry>)
    requires LogStages(now, cancels, was, log) && q != []
    requires AllTrack(now, cancels, was, q, log)
    ensures LogStages(now, cancels, was, log + [q[0]])
  {
    var l := log + [q[0]];
    forall i, j: nat | 0 <= i < |was| && j < |l|
      ensures FiredAt(now, was[i], cancels, l, j)
    {
      assert l[..j] == log[..j];
      if j < |log| {
        assert FiredAt(now, was[i], cancels, log, j);
      } else {
        assert log[..j] == log;
        assert Tracks(now, was[i], cancels, q, Fires(log, was[i].id));
      }
    }
  }

  ghost predicate TickInv(now: nat, lo: int, cancels: (nat, nat) -> bool, was: seq<Entry>,
                          q: seq<Entry>, log: seq<Entry>, next: nat)
  {
    && QueueOk(now, lo, q, next) && LogOk(now, log, q) && LogStages(now, cancels, was, log)
    && AllTrack(now, cancels, was, q, log) && AllKnown(was, q) && AllKnown(was, log)
  }

  ghost predicate AllTrack(now: nat, cancels: (nat, nat) -> bool, was: seq<Entry>, q: seq<Entry>, log: seq<Entry>)
  {
    forall i :: 0 <= i < |was| ==> Tracks(now, was[i], cancels, q, Fires(log, was[i].id))
  }

  /** Only timers that were queued before the tick. */
  ghost predicate AllKnown(was: seq<Entry>, q: seq<Entry>)
  {
    forall i :: 0 <= i < |q| ==> Queued(was, q[i].id)
  }

  lemma TickStarts(now: nat, lo: int, cancels: (nat, nat) -> bool, was: seq<Entry>, next: nat)
    requires QueueOk(now, lo, was, next)
    ensures TickInv(now, lo, cancels, was, was, [], next)
  {
    forall i | 0 <= i < |was|
      ensures Tracks(now, was[i], cancels, was, Fires([], was[i].id))
    {
      assert Queued(was, was[i].id);
    }
    forall i | 0 <= i < |was|
      ensures Queued(was, was[i].id)
    {
    }
  }

  lemma FiresMore(log: seq<Entry>, x: Entry, id: nat)
    ensures Fires(log + [x], id) == Fires(log, id) + if x.id == id then 1 else 0
  {
    assert (log + [x])[..|log|] == log;
  }

  /** Only timer x.id has moved between q and t. */
  ghost predicate SameOthers(q: seq<Entry>, t: seq<Entry>, id: nat)
  {
    forall x: Entry :: x.id != id ==> (x in q <==> x in t)
  }

  lemma TracksOther(now: nat, e: Entry, cancels: (nat, nat) -> bool, q: seq<Entry>, t: seq<Entry>, id: nat, n: nat)
    requires Tracks(now, e, cancels, q, n) && SameOthers(q, t, id) && e.id != id
    ensures Tracks(now, e, cancels, t, n)
  {
    forall i | 0 <= i < |t| && t[i].id == e.id
      ensures t[i] in q
    {
    }
    if Queued(q, e.id) {
      var i :| 0 <= i < |q| && q[i].id == e.id;
      assert q[i] in t;
    }
  }

  /** The timer that fired is not put back. */
  lemma TracksDrop(now: nat, lo: int, e: Entry, cancels: (nat, nat) -> bool, q: seq<Entry>, n: nat)
    requires now < WRAP && q != [] && e.id == q[0].id && Tracks(now, e, cancels, q, n)
    requires forall i, j :: 0 <= i < j < |q| ==> q[i].id != q[j].id
    requires EntryOk(now, lo, q[0]) && Diff(q[0].time, now) <= 0 && (q[0].period == 0 || cancels(e.id, n + 1))
    ensures Tracks(now, e, cancels, q[1..], n + 1)
  {
    StageNext(now, lo, e, cancels, n, q[0].time);
    assert forall i :: 0 <= i < |q[1..]| ==> q[1..][i] == q[i + 1];
  }

  /** The timer that fired is put back as y. */
  lemma TracksAgain(now: nat, lo: int, e: Entry, cancels: (nat, nat) -> bool, q: seq<Entry>, n: nat,
                    t: seq<Entry>, y: Entry, at: nat)
    requires now < WRAP && q != [] && e.id == q[0].id && Tracks(now, e, cancels, q, n)
    requires forall i, j :: 0 <= i < j < |q| ==> q[i].id != q[j].id
    requires EntryOk(now, lo, q[0]) && Diff(q[0].time, now) <= 0 && q[0].period > 0 && !cancels(e.id, n + 1)
    requires at < |q| && t == Insert(q[1..], at, y)
    requires y.id == e.id && y.period == e.period && y.time == NextTime(now, q[0].time, q[0].period)
    ensures Tracks(now, e, cancels, t, n + 1)
  {
    StageNext(now, lo, e, cancels, n, q[0].time);
    InsertIs(q[1..], at, y);
    assert forall i :: 0 <= i < |q[1..]| ==> q[1..][i] == q[i + 1];
    assert t[at] == y;
  }

  lemma LogFire(now: nat, log: seq<Entry>, q: seq<Entry>)
    requires q != [] && Sorted(now, q) && LogOk(now, log, q) && Diff(q[0].time, now) <= 0
    ensures LogOk(now, log + [q[0]], q[1..])
  {
    var l, t := log + [q[0]], q[1..];
    forall j, i | 0 <= j < |l| && 0 <= i < |t|
      ensures Before(now, l[j], t[i])
    {
      assert t[i] == q[i + 1];
    }
  }

  /** What has fired comes before anything put back for later. */
  lemma LogInsert(now: nat, log: seq<Entry>, q: seq<Entry>, at: nat, y: Entry, x: Entry)
    requires at <= |q| && LogOk(now, log, q) && Diff(y.time, now) > Diff(x.time, now)
    requires forall j :: 0 <= j < |log| ==> Diff(log[j].time, now) <= Diff(x.time, now)
    ensures LogOk(now, log, Insert(q, at, y))
  {
    InsertIs(q, at, y);
    var t := Insert(q, at, y);
    forall j, i | 0 <= j < |log| && 0 <= i < |t|
      ensures Before(now, log[j], t[i])
    {
      assert i == at || t[i] == if i < at then q[i] else q[i - 1];
    }
  }

  lemma PopOk(now: nat, lo: int, q: seq<Entry>, next: nat)
    requires QueueOk(now, lo, q, next) && q != []
    ensures QueueOk(now, lo, q[1..], next) && SameOthers(q, q[1..], q[0].id)
    ensures forall i :: 0 <= i < |q[1..]| ==> q[1..][i].id != q[0].id
  {
    assert forall i :: 0 <= i < |q[1..]| ==> q[1..][i] == q[i + 1];
    assert q == [q[0]] + q[1..];
  }

  lemma KnownSub(was: seq<Entry>, q: seq<Entry>, t: seq<Entry>)
    requires AllKnown(was, q) && forall x: Entry :: x in t ==> exists i :: 0 <= i < |q| && q[i].id == x.id
    ensures AllKnown(was, t)
  {
    forall i | 0 <= i < |t|
      ensures Queued(was, t[i].id)
    {
      assert t[i] in t;
    }
  }

  lemma KnownMore(was: seq<Entry>, q: seq<Entry>, log: seq<Entry>)
    requires q != [] && AllKnown(was, q) && AllKnown(was, log)
    ensures AllKnown(was, log + [q[0]]) && AllKnown(was, q[1..])
  {
    KnownSub(was, q, q[1..]);
  }

  lemma DropTracks(now: nat, lo: int, cancels: (nat, nat) -> bool, was: seq<Entry>, q: seq<Entry>, log: seq<Entry>,
                   next: nat)
    requires QueueOk(now, lo, q, next) && AllTrack(now, cancels, was, q, log) && q != []
    requires Diff(q[0].time, now) <= 0 && (q[0].period == 0 || cancels(q[0].id, Fires(log, q[0].id) + 1))
    ensures AllTrack(now, cancels, was, q[1..], log + [q[0]])
  {
    hide Tracks, Diff;
    var x := q[0];
    PopOk(now, lo, q, next);
    forall i | 0 <= i < |was|
      ensures Tracks(now, was[i], cancels, q[1..], Fires(log + [x], was[i].id))
    {
      FiresMore(log, x, was[i].id);
      if was[i].id == x.id {
        TracksDrop(now, lo, was[i], cancels, q, Fires(log, x.id));
      } else {
        TracksOther(now, was[i], cancels, q, q[1..], x.id, Fires(log, was[i].id));
      }
    }
  }

  /** One turn of the tick: the head has fired and was not put back. */
  lemma FireDrop(now: nat, lo: int, cancels: (nat, nat) -> bool, was: seq<Entry>, q: seq<Entry>, log: seq<Entry>,
                 next: nat)
    requires TickInv(now, lo, cancels, was, q, log, next) && q != [] && Diff(q[0].time, now) <= 0
    requires q[0].period == 0 || cancels(q[0].id, Fires(log, q[0].id) + 1)
    ensures TickInv(now, lo, cancels, was, q[1..], log + [q[0]], next)
  {
    PopOk(now, lo, q, next);
    LogFire(now, log, q);
    StagesMore(now, cancels, was, q, log);
    DropTracks(now, lo, cancels, was, q, log, next);
    KnownMore(was, q, log);
  }

  /** What the code puts back for the timer it has just fired. */
  function Again(now: nat, x: Entry, next: nat): Entry
  {
    Entry(x.id, NextTime(now, x.time, x.period), x.period, next)
  }

  lemma AgainOk(now: nat, lo: int, x: Entry, next: nat)
    requires now < WRAP && EntryOk(now, lo, x) && Diff(x.time, now) <= 0 && x.period > 0
    ensures EntryOk(now, lo, Again(now, x, next))
    ensures Diff(Again(now, x, next).time, now) > Diff(x.time, now)
    ensures Diff(Again(now, x, next).time, now) <= 0 ==>
              Diff(x.time, now) < 0 && Diff(Again(now, x, next).time, now) == 0
  {
    NextTimeIs(now, lo, x.time, x.period);
  }

  lemma AgainQueue(now: nat, lo: int, q: seq<Entry>, log: seq<Entry>, next: nat, at: nat)
    requires QueueOk(now, lo, q, next) && LogOk(now, log, q) && q != [] && Diff(q[0].time, now) <= 0
    requires q[0].period > 0 && PlacedAt(q[1..], Again(now, q[0], next), at)
    ensures var t := Insert(q[1..], at, Again(now, q[0], next));
            QueueOk(now, lo, t, next + 1) && LogOk(now, log + [q[0]], t) && SameOthers(q, t, q[0].id)
  {
    var x, y := q[0], Again(now, q[0], next);
    PopOk(now, lo, q, next);
    AgainOk(now, lo, x, next);
    InsertedOk(now, lo, q[1..], next, y, at);
    LogFire(now, log, q);
    forall j | 0 <= j < |log + [x]|
      ensures Diff((log + [x])[j].time, now) <= Diff(x.time, now)
    {
      if j < |log| {
        assert Before(now, log[j], q[0]);
      }
    }
    LogInsert(now, log + [x], q[1..], at, y, x);
    InsertIs(q[1..], at, y);
  }

  lemma AgainTracks(now: nat, lo: int, e: Entry, cancels: (nat, nat) -> bool, q: seq<Entry>, log: seq<Entry>,
                    next: nat, at: nat)
    requires QueueOk(now, lo, q, next) && LogOk(now, log, q) && q != [] && Diff(q[0].time, now) <= 0
    requires Tracks(now, e, cancels, q, Fires(log, e.id))
    requires q[0].period > 0 && !cancels(q[0].id, Fires(log, q[0].id) + 1)
    requires PlacedAt(q[1..], Again(now, q[0], next), at)
    ensures Tracks(now, e, cancels, Insert(q[1..], at, Again(now, q[0], next)), Fires(log + [q[0]], e.id))
  {
    hide Diff, Fires, LogOk;
    var x, y := q[0], Again(now, q[0], next);
    var t := Insert(q[1..], at, y);
    FiresMore(log, x, e.id);
    if e.id == x.id {
      assert x.period == e.period;
      TracksAgain(now, lo, e, cancels, q, Fires(log, x.id), t, y, at);
    } else {
      AgainQueue(now, lo, q, log, next, at);
      TracksOther(now, e, cancels, q, t, x.id, Fires(log, e.id));
    }
  }

  lemma AgainAllTrack(now: nat, lo: int, cancels: (nat, nat) -> bool, was: seq<Entry>, q: seq<Entry>,
                      log: seq<Entry>, next: nat, at: nat)
    requires QueueOk(now, lo, q, next) && LogOk(now, log, q) && q != [] && Diff(q[0].time, now) <= 0
    requires AllTrack(now, cancels, was, q, log)
    requires q[0].period > 0 && !cancels(q[0].id, Fires(log, q[0].id) + 1)
    requires PlacedAt(q[1..], Again(now, q[0], next), at)
    ensures AllTrack(now, cancels, was, Insert(q[1..], at, Again(now, q[0], next)), log + [q[0]])
  {
    forall i | 0 <= i < |was|
      ensures Tracks(now, was[i], cancels, Insert(q[1..], at, Again(now, q[0], next)), Fires(log + [q[0]], was[i].id))
    {
      AgainTracks(now, lo, was[i], cancels, q, log, next, at);
    }
  }

  lemma AgainKnown(was: seq<Entry>, q: seq<Entry>, y: Entry, at: nat)
    requires q != [] && at < |q| && y.id == q[0].id && AllKnown(was, q)
    ensures AllKnown(was, Insert(q[1..], at, y))
  {
    InsertIs(q[1..], at, y);
    KnownSub(was, q, Insert(q[1..], at, y));
  }

  /** One turn of the tick: the head has fired and was put back. */
  lemma FireAgain(now: nat, lo: int, cancels: (nat, nat) -> bool, was: seq<Entry>, q: seq<Entry>, log: seq<Entry>,
                  next: nat, at: nat)
    requires TickInv(now, lo, cancels, was, q, log, next) && q != [] && Diff(q[0].time, now) <= 0
    requires q[0].period > 0 && !cancels(q[0].id, Fires(log, q[0].id) + 1)
    requires PlacedAt(q[1..], Again(now, q[0], next), at)
    ensures TickInv(now, lo, cancels, was, Insert(q[1..], at, Again(now, q[0], next)), log + [q[0]], next + 1)
  {
    AgainQueue(now, lo, q, log, next, at);
    StagesMore(now, cancels, was, q, log);
    AgainAllTrack(now, lo, cancels, was, q, log, next, at);
    AgainKnown(was, q, Again(now, q[0], next), at);
    KnownMore(was, q, log);
  }

  // ---------- the end of a tick ----------

  lemma RoundsIs(now: nat, lo: int, e: Entry, cancels: (nat, nat) -> bool, n: nat)
    requires now < WRAP && EntryOk(now, lo, e) && !Due(now, Stage(now, e, cancels, n))
    requires forall k :: 0 <= k < n ==> Due(now, Stage(now, e, cancels, k))
    ensures n == Rounds(now, e, cancels) <= 2
  {
    if n > 0 {
      assert Due(now, Stage(now, e, cancels, 0));
      Twice(now, lo, e, cancels);
      if n > 1 {
        assert Due(now, Stage(now, e, cancels, 1));
      }
    }
  }

  /** Everything the tick promises of timer e. */
  ghost predicate Settled(now: nat, e: Entry, cancels: (nat, nat) -> bool, q: seq<Entry>, n: nat)
  {
    && n == Rounds(now, e, cancels) && n <= 2
    && (Queued(q, e.id) <==> Stage(now, e, cancels, n).Some?)
    && (forall i :: 0 <= i < |q| && q[i].id == e.id ==>
                      && Stage(now, e, cancels, n) == Some(q[i].time) && q[i].period == e.period
                      && Diff(q[i].time, now) > 0)
  }

  /** No timer is due: every timer has fired as often as it should and is queued for later, once, or not at all. */
  lemma TickEnds(now: nat, lo: int, cancels: (nat, nat) -> bool, was: seq<Entry>, q: seq<Entry>, log: seq<Entry>,
                 next: nat, e: Entry)
    requires TickInv(now, lo, cancels, was, q, log, next) && EntryOk(now, lo, e) && e in was
    requires q != [] ==> Diff(q[0].time, now) > 0
    ensures Settled(now, e, cancels, q, Fires(log, e.id))
  {
    var n := Fires(log, e.id);
    assert Tracks(now, e, cancels, q, n);
    forall i | 0 <= i < |q|
      ensures Diff(q[i].time, now) > 0
    {
      assert i == 0 || Before(now, q[0], q[i]);
    }
    if Stage(now, e, cancels, n).Some? {
      assert Queued(q, e.id);
      var i :| 0 <= i < |q| && q[i].id == e.id;
      assert Stage(now, e, cancels, n) == Some(q[i].time);
    }
    RoundsIs(now, lo, e, cancels, n);
  }

  // ---------- from one tick to the next ----------

  /** No timer is due. */
  ghost predicate NoneDue(now: nat, q: seq<Entry>)
  {
    forall i :: 0 <= i < |q| ==> Diff(q[i].time, now) > 0
  }

  /** Every timer lies at most `ahead` after now and has a period no longer than that. */
  ghost predicate AllWithin(now: nat, q: seq<Entry>, ahead: nat)
  {
    forall i :: 0 <= i < |q| ==> Diff(q[i].time, now) <= ahead && q[i].period <= ahead
  }

  lemma DiffLater(now: nat, t: nat, step: nat)
    requires -HALF <= Diff(t, now) - step
    ensures Diff(t, (now + step) % WRAP) == Diff(t, now) - step
  {
    var k := DiffSplit(t, now);
    var m := (now + step) / WRAP;
    assert now + step == m * WRAP + (now + step) % WRAP;
    DiffOf(t, (now + step) % WRAP, k + m, Diff(t, now) - step);
  }

  /** The queue one tick leaves is in order for the next, step ticks later and seen through a window from lo' on,
      exactly when every timer and every period fits into that window. */
  lemma LaterQueue(now: nat, lo: int, q: seq<Entry>, next: nat, step: nat, lo': int)
    requires QueueOk(now, lo, q, next) && NoneDue(now, q) && step < HALF && -HALF < lo' <= 0 && lo' <= 1 - step
    ensures QueueOk((now + step) % WRAP, lo', q, next) <==>
            forall i :: 0 <= i < |q| ==> Diff(q[i].time, now) - step < lo' + HALF && q[i].period < lo' + HALF
  {
    var later := (now + step) % WRAP;
    forall i | 0 <= i < |q|
      ensures Diff(q[i].time, later) == Diff(q[i].time, now) - step
    {
      DiffLater(now, q[i].time, step);
    }
    assert Sorted(later, q) by {
      forall i, j | 0 <= i < j < |q|
        ensures Before(later, q[i], q[j])
      {
        assert Before(now, q[i], q[j]);
      }
    }
  }

  /** So no run of ticks at most `gap` apart leaves the half range, for timers and periods up to HALF - gap. */
  lemma NextTickOk(now: nat, q: seq<Entry>, next: nat, step: nat, ahead: nat, gap: nat)
    requires 0 < gap && ahead + gap <= HALF && step <= gap && gap < HALF
    requires QueueOk(now, 1 - gap, q, next) && NoneDue(now, q) && AllWithin(now, q, ahead)
    ensures QueueOk((now + step) % WRAP, 1 - gap, q, next) && AllWithin((now + step) % WRAP, q, ahead)
  {
    LaterQueue(now, 1 - gap, q, next, step, 1 - gap);
    forall i | 0 <= i < |q|
      ensures Diff(q[i].time, (now + step) % WRAP) <= ahead
    {
      DiffLater(now, q[i].time, step);
    }
  }

  /** A tick puts no timer further ahead than the queue or its period did. */
  lemma StaysWithin(now: nat, lo: int, e: Entry, cancels: (nat, nat) -> bool, q: seq<Entry>, n: nat, i: nat, ahead: nat)
    requires now < WRAP && EntryOk(now, lo, e) && Settled(now, e, cancels, q, n) && i < |q| && q[i].id == e.id
    requires Diff(e.time, now) <= ahead && e.period <= ahead
    ensures Diff(q[i].time, now) <= ahead && q[i].period <= ahead
  {
    if n > 0 {
      StageNext(now, lo, e, cancels, 0, e.time);
      if n > 1 {
        StageNext(now, lo, e, cancels, 1, Stage(now, e, cancels, 1).value);
      }
    }
  }

  // ---------- why a tick ends ----------

  function Weight(now: nat, t: nat): nat
  {
    if Diff(t, now) < 0 then 2 else if Diff(t, now) == 0 then 1 else 0
  }

  function Load(now: nat, q: seq<Entry>): nat
  {
    if q == [] then 0 else Weight(now, q[0].time) + Load(now, q[1..])
  }

  lemma {:induction false} LoadInsert(now: nat, q: seq<Entry>, at: nat, y: Entry)
    requires at <= |q|
    ensures Load(now, Insert(q, at, y)) == Load(now, q) + Weight(now, y.time)
    decreases at
  {
    var t := Insert(q, at, y);
    if at == 0 {
      assert t == [y] + q;
      assert t[1..] == q;
    } else {
      assert t[0] == q[0];
      assert t[1..] == Insert(q[1..], at - 1, y);
      LoadInsert(now, q[1..], at - 1, y);
    }
  }

  /** A turn lightens the queue. */
  lemma LoadLess(now: nat, lo: int, q: seq<Entry>, next: nat, at: nat)
    requires now < WRAP && q != [] && EntryOk(now, lo, q[0]) && Diff(q[0].time, now) <= 0 && at < |q|
    ensures Load(now, q[1..]) < Load(now, q)
    ensures q[0].period > 0 ==> Load(now, Insert(q[1..], at, Again(now, q[0], next))) < Load(now, q)
  {
    if q[0].period > 0 {
      AgainOk(now, lo, q[0], next);
      LoadInsert(now, q[1..], at, Again(now, q[0], next));
    }
  }
}
