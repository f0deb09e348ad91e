/** One-shot timers: a heap of events, drained whenever the clock is looked at. */
module Timer {
  import opened HeapShape
  import opened TreeHeap

  /** What the callback of an event does: set up further events, and cancel some. Every finite stretch
      of execution is such a tree. */
  datatype Callback = Callback(ops: seq<Op>)
  datatype Op = OneShot(delay: nat, callback: Callback) | Cancel(id: nat)

  datatype Event = Event(trigger: nat, id: nat, callback: Callback)

  /** What happened: an event was set up or its callback ran, each at a time, or it was cancelled. */
  datatype Entry = Added(id: nat, at: nat) | Ran(id: nat, trigger: nat, at: nat) | Cancelled(id: nat)

  predicate Sooner(a: Event, b: Event) {
    a.trigger < b.trigger
  }

  /** The one can happen before the other: no callback runs before its event is set up, twice, out of the order of
      trigger times, or after its cancellation; and events are numbered in the order they are set up. */
  predicate Before(a: Entry, b: Entry) {
    && (a.Added? && b.Added? ==> a.id < b.id)
    && (a.Ran? && b.Added? ==> a.id != b.id)
    && (a.Ran? && b.Ran? ==> a.id != b.id && a.trigger <= b.trigger)
    && (a.Cancelled? && b.Ran? ==> a.id != b.id)
    && (!a.Cancelled? && !b.Cancelled? ==> a.at <= b.at)
  }

  /** No callback ran early, and all happened in order. */
  ghost predicate Proper(log: seq<Entry>) {
    && (forall i :: 0 <= i < |log| && log[i].Ran? ==> log[i].trigger <= log[i].at)
    && (forall i, j :: 0 <= i < j < |log| ==> Before(log[i], log[j]))
  }

  /** All happened by now. */
  ghost predicate Past(log: seq<Entry>, now: nat) {
    forall e :: e in log && !e.Cancelled? ==> e.at <= now
  }

  /** Every event to come has the callback it was set up with. */
  ghost predicate Told(what: map<nat, Callback>, due: map<nat, nat>, pending: set<Element<Event>>) {
    what.Keys == due.Keys && forall x :: x in pending ==> x.key.id in what && x.key.callback == what[x.key.id]
  }

  ghost predicate HasRun(log: seq<Entry>, id: nat) {
    exists e :: e in log && e.Ran? && e.id == id
  }

  /** The past, up to trigger time `floor`, and the events still to come fit together: each event ever
      set up is to come, has run, or was cancelled, all at the time it was set up for. */
  ghost predicate Fits(log: seq<Entry>, cancelled: set<nat>, floor: nat, due: map<nat, nat>, nextId: nat, pending: set<Element<Event>>) {
    && Proper(log) && (forall id :: id in due <==> 1 <= id <= nextId)
    && (forall e :: e in log && e.Added? ==> e.id in due)
    && (forall e :: e in log && e.Ran? ==> e.id in due && e.trigger == due[e.id])
    && (forall x :: x in pending ==> x.key.id in due && x.key.trigger == due[x.key.id])
    && (forall e :: e in log && e.Ran? ==> e.trigger <= floor && e.id <= nextId)
    && (forall id :: id in cancelled <==> Cancelled(id) in log)
    && (forall x :: x in pending ==> x.key.trigger >= floor && 1 <= x.key.id <= nextId && !HasRun(log, x.key.id))
    && (forall x, y :: x in pending && y in pending && x != y ==> x.key.id != y.key.id)
    && (forall id :: 1 <= id <= nextId ==> Accounted(log, cancelled, pending, id))
  }

  ghost predicate Accounted(log: seq<Entry>, cancelled: set<nat>, pending: set<Element<Event>>, id: nat) {
    HasRun(log, id) || id in cancelled || exists x :: x in pending && x.key.id == id
  }

  lemma ProperMore(log: seq<Entry>, entry: Entry)
    requires Proper(log) && (entry.Ran? ==> entry.trigger <= entry.at)
    requires forall e :: e in log ==> Before(e, entry)
    ensures Proper(log + [entry])
  {
    hide Before;
  }

  lemma PastMore(log: seq<Entry>, entry: Entry, now: nat)
    requires Past(log, now) && (!entry.Cancelled? ==> entry.at <= now)
    ensures Past(log + [entry], now)
  {
  }

  lemma LaterPast(log: seq<Entry>, earlier: nat, now: nat)
    requires Past(log, earlier) && earlier <= now
    ensures Past(log, now)
  {
  }

  lemma ToldMore(what: map<nat, Callback>, due: map<nat, nat>, pending: set<Element<Event>>, x: Element<Event>)
    requires Told(what, due, pending) && x.key.id !in due
    ensures x.key.id !in what
    ensures Told(what[x.key.id := x.key.callback], due[x.key.id := x.key.trigger], pending + {x})
  {
  }

  lemma HasRunMore(log: seq<Entry>, entry: Entry)
    ensures forall id :: HasRun(log + [entry], id) <==> HasRun(log, id) || (entry.Ran? && id == entry.id)
  {
    assert entry in log + [entry];
    forall id | HasRun(log, id) ensures HasRun(log + [entry], id) {
      var e :| e in log && e.Ran? && e.id == id;
      assert e in log + [entry];
    }
  }

  lemma LogRan(log: seq<Entry>, cancelled: set<nat>, floor: nat, due: map<nat, nat>, nextId: nat, pending: set<Element<Event>>, x: Element<Event>, now: nat)
    requires Fits(log, cancelled, floor, due, nextId, pending) && x in pending && x.key.trigger <= now && x.key.id !in cancelled
    requires Past(log, now) && forall y :: y in pending ==> x.key.trigger <= y.key.trigger
    ensures Fits(log + [Ran(x.key.id, x.key.trigger, now)], cancelled, x.key.trigger, due, nextId, pending - {x})
  {
    hide Proper;
    var entry := Ran(x.key.id, x.key.trigger, now);
    var log' := log + [entry];
    assert !HasRun(log, x.key.id);
    HasRunMore(log, entry);
    forall e | e in log ensures Before(e, entry) {
      if e.Cancelled? { assert e == Cancelled(e.id); }
    }
    ProperMore(log, entry);
    assert forall e :: e in log' <==> e in log || e == entry;
    forall id | 1 <= id <= nextId ensures Accounted(log', cancelled, pending - {x}, id) {
      assert Accounted(log, cancelled, pending, id);
      if id != x.key.id && !HasRun(log, id) && id !in cancelled {
        var y :| y in pending && y.key.id == id;
        assert y in pending - {x};
      }
    }
  }

  /** A cancelled event leaves the heap without a trace. */
  lemma LogSkipped(log: seq<Entry>, cancelled: set<nat>, floor: nat, due: map<nat, nat>, nextId: nat, pending: set<Element<Event>>, x: Element<Event>)
    requires Fits(log, cancelled, floor, due, nextId, pending) && x in pending && x.key.id in cancelled
    requires forall y :: y in pending ==> x.key.trigger <= y.key.trigger
    ensures Fits(log, cancelled, x.key.trigger, due, nextId, pending - {x})
  {
    forall id | 1 <= id <= nextId ensures Accounted(log, cancelled, pending - {x}, id) {
      assert Accounted(log, cancelled, pending, id);
      if id != x.key.id && !HasRun(log, id) && id !in cancelled {
        var y :| y in pending && y.key.id == id;
        assert y in pending - {x};
      }
    }
  }

  lemma LogCancelled(log: seq<Entry>, cancelled: set<nat>, floor: nat, due: map<nat, nat>, nextId: nat, pending: set<Element<Event>>, id: nat)
    requires Fits(log, cancelled, floor, due, nextId, pending)
    ensures Fits(log + [Cancelled(id)], cancelled + {id}, floor, due, nextId, pending)
  {
    hide Proper;
    var log' := log + [Cancelled(id)];
    HasRunMore(log, Cancelled(id));
    ProperMore(log, Cancelled(id));
    assert forall e :: e in log' <==> e in log || e == Cancelled(id);
    forall k | 1 <= k <= nextId ensures Accounted(log', cancelled + {id}, pending, k) {
      assert Accounted(log, cancelled, pending, k);
    }
  }

  lemma LogAdded(log: seq<Entry>, cancelled: set<nat>, floor: nat, due: map<nat, nat>, nextId: nat, pending: set<Element<Event>>, x: Element<Event>, now: nat)
    requires Fits(log, cancelled, floor, due, nextId, pending) && x !in pending && x.key.id == nextId + 1 && x.key.trigger >= floor
    requires Past(log, now)
    ensures nextId + 1 !in due
    ensures Fits(log + [Added(nextId + 1, now)], cancelled, floor, due[nextId + 1 := x.key.trigger], nextId + 1, pending + {x})
  {
    hide Proper;
    var entry := Added(nextId + 1, now);
    var log' := log + [entry];
    HasRunMore(log, entry);
    ProperMore(log, entry);
    assert forall e :: e in log' <==> e in log || e == entry;
    assert !HasRun(log, x.key.id);
    forall id | 1 <= id <= nextId + 1 ensures Accounted(log', cancelled, pending + {x}, id) {
      if id <= nextId {
        assert Accounted(log, cancelled, pending, id);
        if !HasRun(log, id) && id !in cancelled {
          var y :| y in pending && y.key.id == id;
          assert y in pending + {x};
        }
      } else {
        assert x in pending + {x};
      }
    }
  }

  // ---------------------------------------------------------------------------------------
  // How much there is still to do

  function Size(callback: Callback): nat
    decreases callback, 1, 0
  {
    SizeOf(callback, |callback.ops|)
  }

  /** The size of the first `n` operations. */
  function SizeOf(callback: Callback, n: nat): nat
    requires n <= |callback.ops|
    decreases callback, 0, n
  {
    if n == 0 then 0
    else SizeOf(callback, n - 1) + OpSize(callback.ops[n - 1])
  }

  function OpSize(op: Op): nat
    decreases op
  {
    match op
    case OneShot(_, inner) => 2 + Size(inner)
    case Cancel(_) => 1
  }

  lemma {:induction false} SizeGrows(callback: Callback, m: nat, n: nat)
    requires m <= n <= |callback.ops|
    ensures SizeOf(callback, m) <= SizeOf(callback, n)
    decreases n
  {
    if m < n {
      SizeGrows(callback, m, n - 1);
    }
  }

  ghost function Work(events: set<Element<Event>>): nat {
    if events == {} then 0
    else
      var x :| x in events;
      1 + Size(x.key.callback) + Work(events - {x})
  }

  lemma {:induction false} WorkWithout(events: set<Element<Event>>, x: Element<Event>)
    requires x in events
    ensures Work(events) == 1 + Size(x.key.callback) + Work(events - {x})
    decreases |events|
  {
    var y :| y in events && Work(events) == 1 + Size(y.key.callback) + Work(events - {y});
    if x != y {
      WorkWithout(events - {y}, x);
      WorkWithout(events - {x}, y);
      assert events - {y} - {x} == events - {x} - {y};
    }
  }

  // ---------------------------------------------------------------------------------------
  // The timer

  class Timer {
    const heap: TreeHeap<Event>
    /** What the hardware's clock shows, and what it showed when it was last looked at. */
    var clock: nat
    var now: nat
    var nextId: nat
    var cancelled: set<nat>
    /** The delay that the hardware was last armed with. */
    var armed: nat

    ghost var log: seq<Entry>
    ghost var floor: nat
    /** The time that each event was set up for, and its callback. */
    ghost var due: map<nat, nat>
    ghost var what: map<nat, Callback>

    ghost predicate Valid()
      reads this, heap, heap.Repr
    {
      && heap.Valid() && heap.less == Sooner && floor <= now <= clock
      && Fits(log, cancelled, floor, due, nextId, heap.Repr)
      && Past(log, now) && Told(what, due, heap.Repr)
    }

    /** Entry `i` of the log is what the operation leaves behind: an event set up with the delay and the callback
        asked for, not before time `since`; or a cancellation. */
    ghost predicate Effects(op: Op, i: nat, since: nat)
      requires i < |log|
      reads this`log, this`due, this`what
    {
      match op
      case OneShot(delay, callback) =>
        && log[i].Added? && since <= log[i].at
        && log[i].id in due && due[log[i].id] == log[i].at + delay && log[i].id in what && what[log[i].id] == callback
      case Cancel(id) => log[i] == Cancelled(id)
    }

    /** The first operations of a callback were carried out, one after the other, at the given entries of the log. */
    ghost predicate Follows(callback: Callback, at: seq<nat>, from: nat, since: nat)
      reads this`log, this`due, this`what
    {
      && |at| <= |callback.ops| && (forall j: nat, k: nat :: j < k < |at| ==> at[j] < at[k])
      && forall k: nat :: k < |at| ==> from <= at[k] < |log| && Effects(callback.ops[k], at[k], since)
    }

    /** All operations of a callback were carried out. */
    ghost predicate Carried(callback: Callback, from: nat, since: nat)
      reads this`log, this`due, this`what
    {
      exists at :: |at| == |callback.ops| && Follows(callback, at, from, since)
    }

    /** Every callback that ran, from entry `from` of the log on, was carried out. */
    ghost predicate Settled(from: nat)
      reads this`log, this`due, this`what
    {
      forall i: nat :: from <= i < |log| && log[i].Ran? ==> log[i].id in what && Carried(what[log[i].id], i + 1, log[i].at)
    }

    /** The past is not rewritten. */
    twostate predicate Grew()
      reads this
    {
      && old(now) <= now && old(clock) <= clock && old(log) <= log && old(nextId) <= nextId && old(cancelled) <= cancelled
      && (forall id :: id in old(due) ==> id in due && due[id] == old(due)[id])
      && (forall id :: id in old(what) ==> id in what && what[id] == old(what)[id])
    }

    /** What was carried out stays carried out. */
    twostate lemma StillFollows(new callback: Callback, new at: seq<nat>, new from: nat, new since: nat)
      requires old(Follows(callback, at, from, since)) && Grew()
      ensures Follows(callback, at, from, since)
    {
      forall k: nat | k < |at| ensures from <= at[k] < |log| && Effects(callback.ops[k], at[k], since) {
        assert old(Effects(callback.ops[k], at[k], since));
        assert log[at[k]] == old(log)[at[k]];
      }
    }

    lemma NothingRan(n: nat)
      requires |log| == n + 1 && log[n].Added?
      ensures Settled(n)
    {
    }

    lemma NothingSettled()
      ensures Settled(|log|)
    {
    }

    twostate lemma StillSettled(new from: nat)
      requires old(Settled(from)) && Settled(|old(log)|) && Grew()
      ensures Settled(from)
    {
      forall i: nat | from <= i < |log| && log[i].Ran?
        ensures log[i].id in what && Carried(what[log[i].id], i + 1, log[i].at)
      {
        if i < |old(log)| {
          assert log[i] == old(log)[i];
          ghost var callback := old(what)[log[i].id];
          assert old(Carried(callback, i + 1, log[i].at));
          ghost var at :| |at| == |callback.ops| && old(Follows(callback, at, i + 1, log[i].at));
          StillFollows(callback, at, i + 1, log[i].at);
        }
      }
    }

    constructor ()
      ensures Valid() && Settled(0) && fresh(heap) && heap.Repr == {} && log == [] && nextId == 0
    {
      SoonerOrder();
      heap := new TreeHeap(Sooner);
      clock, now, nextId, cancelled, armed := 0, 0, 0, {}, 0;
      log, floor, due, what := [], 0, map[], map[];
    }

    /** Time passes. The clock never goes back. */
    method Elapse()
      modifies this`clock
      ensures clock >= old(clock)
    {
      var t: nat :| t >= clock;
      clock := t;
    }

    /** Looks at the clock. */
    method UpdateNow()
      requires Valid()
      modifies this`now
      ensures Valid() && now == clock
    {
      hide Fits, Past, Told;
      LaterPast(log, now, clock);
      now := clock;
    }

    /** What every operation keeps: the timer is valid, the past is not rewritten, callbacks that ran since were
        carried out, and no more work is left than `work`. */
    twostate predicate Advanced(work: nat)
      reads this, heap, heap.Repr
    {
      && Valid() && Grew() && Settled(|old(log)|)
      && fresh(heap.Repr - old(heap.Repr)) && Work(heap.Repr) <= work
    }

    /** Sets up an event, and runs whatever is due by now. */
    method Do(delay: nat, callback: Callback) returns (id: nat)
      requires Valid()
      modifies this, heap, heap.Repr
      ensures Advanced(Work(old(heap.Repr)) + 1 + Size(callback)) && Drained()
      ensures now == clock
      ensures id == old(nextId) + 1 <= nextId && |old(log)| < |log| && log[|old(log)|].Added? && log[|old(log)|].id == id
      ensures Effects(OneShot(delay, callback), |old(log)|, old(clock))
      decreases Work(heap.Repr) + 1 + Size(callback), 2
    {
      hide Fits, Work, Size, Drained, Settled, Past, Told, TreeHeap.Valid;
      UpdateNow();
      id := nextId + 1;
      Add(delay, callback);
      label Added:
      Elapse();
      ScheduleNext();
      assert log[|old(log)|] == old@Added(log)[|old(log)|];
      StillSettled@Added(|old(log)|);
    }

    method Add(delay: nat, callback: Callback)
      requires Valid()
      modifies this, heap, heap.Repr
      ensures Advanced(Work(old(heap.Repr)) + 1 + Size(callback)) && Work(heap.Repr) == Work(old(heap.Repr)) + 1 + Size(callback)
      ensures nextId == old(nextId) + 1 && now == old(now) && clock == old(clock) && log == old(log) + [Added(nextId, now)]
      ensures due == old(due)[nextId := now + delay] && what == old(what)[nextId := callback]
    {
      hide Fits, Work, Size, Settled, Past, Told, TreeHeap.Valid;
      var x := new Element<Event>(Event(now + delay, nextId + 1, callback));
      LogAdded(log, cancelled, floor, due, nextId, heap.Repr, x, now);
      PastMore(log, Added(nextId + 1, now), now);
      ToldMore(what, due, heap.Repr, x);
      WorkWithout(heap.Repr + {x}, x);
      assert heap.Repr + {x} - {x} == heap.Repr;
      heap.Push(x);
      nextId := nextId + 1;
      due, what, log := due[nextId := x.key.trigger], what[nextId := callback], log + [Added(nextId, now)];
      NothingRan(|old(log)|);
    }

    /** Everything left is in the future, and the hardware is armed for the first of it. */
    ghost predicate Drained()
      reads this, heap
    {
      && (forall x :: x in heap.Repr ==> x.key.trigger > now)
      && (heap.Repr != {} ==>
            exists x :: x in heap.Repr && armed == x.key.trigger - now && forall y :: y in heap.Repr ==> x.key.trigger <= y.key.trigger)
    }

    /** The first event in the heap. */
    lemma Next()
      requires heap.Valid() && heap.less == Sooner
      ensures heap.top == null <==> heap.Repr == {}
      ensures heap.top != null ==> heap.top in heap.Repr && forall y :: y in heap.Repr ==> heap.top.key.trigger <= y.key.trigger
    {
      if heap.size > 0 {
        heap.First();
        assert heap.top in heap.Repr;
        assert forall y :: y in heap.Repr ==> !Sooner(y.key, heap.top.key);
      } else {
        assert heap.Repr == {};
      }
    }

    /** Runs what is due, in order, and arms the hardware for what comes next. */
    method ScheduleNext()
      requires Valid()
      modifies this, heap, heap.Repr
      ensures Advanced(Work(old(heap.Repr))) && Drained() && now == clock
      decreases Work(heap.Repr), 1
    {
      hide Fits, Work, Size, Settled, Past, Told, TreeHeap.Valid;
      UpdateNow();
      NothingSettled();
      while heap.top != null && heap.top.key.trigger <= now
        invariant Advanced(Work(old(heap.Repr))) && now == clock
        decreases Work(heap.Repr)
      {
        label Before:
        Fire();
        StillSettled@Before(|old(log)|);
        UpdateNow();
      }
      Next();
      if heap.top != null {
        armed := heap.top.key.trigger - now;
      }
    }

    /** Takes out the first event, which is due, and notes that it runs, unless it was cancelled. */
    method Take() returns (x: Element<Event>, runs: bool)
      requires Valid() && heap.top != null && heap.top.key.trigger <= now
      modifies this`log, this`floor, heap, heap.Repr
      ensures x.key.id in what && x.key.callback == what[x.key.id]
      ensures Valid() && x == old(heap.top) && heap.Repr == old(heap.Repr) - {x}
      ensures Work(old(heap.Repr)) == 1 + Size(x.key.callback) + Work(heap.Repr)
      ensures runs == (x.key.id !in cancelled)
      ensures log == if runs then old(log) + [Ran(x.key.id, x.key.trigger, now)] else old(log)
    {
      hide Fits, Work, Size, Past;
      Next();
      PastMore(log, Ran(heap.top.key.id, heap.top.key.trigger, now), now);
      ghost var pending := heap.Repr;
      x := heap.Pop();
      WorkWithout(pending, x);
      runs := x.key.id !in cancelled;
      if runs {
        LogRan(log, cancelled, floor, due, nextId, pending, x, now);
        log := log + [Ran(x.key.id, x.key.trigger, now)];
      } else {
        LogSkipped(log, cancelled, floor, due, nextId, pending, x);
      }
      floor := x.key.trigger;
    }

    /** Takes out the first event, which is due, and runs its callback, unless it was cancelled. */
    method Fire()
      requires Valid() && heap.top != null && heap.top.key.trigger <= now
      modifies this, heap, heap.Repr
      ensures Work(old(heap.Repr)) >= 1 && Advanced(Work(old(heap.Repr)) - 1)
      ensures var event, n := old(heap.top).key, |old(log)|;
              if event.id in old(cancelled) then log == old(log)
              else
                && n < |log| && log[n] == Ran(event.id, event.trigger, old(now))
                && event.id in what && what[event.id] == event.callback && Carried(event.callback, n + 1, old(now))
      decreases Work(heap.Repr), 0
    {
      hide Fits, Work, Size, Follows, Carried, Settled, Past, Told, TreeHeap.Valid;
      var x, runs := Take();
      if runs {
        label Taken:
        ghost var at := Run(x.key.callback);
        assert log[|old(log)|] == old@Taken(log)[|old(log)|];
        CarriedSince(x.key.callback, at, |old(log)| + 1, old(clock), old(now));
        SettledFrom(|old(log)|);
      } else {
        NothingSettled();
      }
      Elapse();
    }

    /** From now on the event's callback does not run. */
    method CancelEvent(id: nat)
      requires Valid()
      modifies this`cancelled, this`log
      ensures Valid() && cancelled == old(cancelled) + {id} && log == old(log) + [Cancelled(id)]
      ensures Grew() && Settled(|old(log)|) && forall since :: Effects(Cancel(id), |old(log)|, since)
    {
      hide Fits, Past, Told;
      PastMore(log, Cancelled(id), now);
      LogCancelled(log, cancelled, floor, due, nextId, heap.Repr, id);
      log := log + [Cancelled(id)];
      cancelled := cancelled + {id};
    }

    /** One operation of a callback. */
    method Perform(op: Op)
      requires Valid()
      modifies this, heap, heap.Repr
      ensures Advanced(Work(old(heap.Repr)) + OpSize(op)) && |old(log)| < |log| && Effects(op, |old(log)|, old(clock))
      decreases Work(heap.Repr) + OpSize(op), 0
    {
      hide Fits, Work, Settled, Past, Told;
      Elapse();
      match op {
        case OneShot(delay, inner) => var _ := Do(delay, inner);
        case Cancel(id) => CancelEvent(id);
      }
    }

    /** Runs a callback, operation by operation. */
    method Run(callback: Callback) returns (ghost at: seq<nat>)
      requires Valid()
      modifies this, heap, heap.Repr
      ensures Advanced(Work(old(heap.Repr)) + Size(callback))
      ensures |at| == |callback.ops| && Follows(callback, at, |old(log)|, old(clock))
      decreases Work(heap.Repr) + Size(callback), 1
    {
      hide Fits, Work, Follows, Settled, Effects, Past, Told;
      var k := 0;
      at := [];
      FollowsNone(callback, |log|, clock);
      NothingSettled();
      while k < |callback.ops|
        invariant 0 <= k <= |callback.ops| && Advanced(Work(old(heap.Repr)) + SizeOf(callback, k))
        invariant |at| == k && Follows(callback, at, |old(log)|, old(clock))
        decreases |callback.ops| - k
      {
        SizeGrows(callback, k + 1, |callback.ops|);
        label Before:
        Perform(callback.ops[k]);
        StillSettled@Before(|old(log)|);
        FollowsNext@Before(callback, at, |old(log)|, old(clock));
        k, at := k + 1, at + [|old@Before(log)|];
      }
    }

    lemma CarriedSince(callback: Callback, at: seq<nat>, from: nat, since: nat, earlier: nat)
      requires |at| == |callback.ops| && Follows(callback, at, from, since) && earlier <= since
      ensures Carried(callback, from, earlier)
    {
      forall k: nat | k < |at| ensures from <= at[k] < |log| && Effects(callback.ops[k], at[k], earlier) {
        assert Effects(callback.ops[k], at[k], since);
      }
      assert Follows(callback, at, from, earlier);
    }

    lemma SettledFrom(n: nat)
      requires n < |log| && log[n].Ran? && log[n].id in what && Carried(what[log[n].id], n + 1, log[n].at) && Settled(n + 1)
      ensures Settled(n)
    {
    }

    lemma FollowsNone(callback: Callback, from: nat, since: nat)
      ensures Follows(callback, [], from, since)
    {
    }

    twostate lemma FollowsNext(new callback: Callback, new at: seq<nat>, new from: nat, new since: nat)
      requires |at| < |callback.ops| && old(Follows(callback, at, from, since)) && Grew()
      requires from <= |old(log)| < |log| && since <= old(clock) && Effects(callback.ops[|at|], |old(log)|, old(clock))
      ensures Follows(callback, at + [|old(log)|], from, since)
    {
      StillFollows(callback, at, from, since);
    }
  }

  /** Once the heap is drained, an event whose time has come has run, unless it was cancelled. */
  lemma DueHasRun(t: Timer, id: nat)
    requires t.Valid() && t.Drained() && id in t.due && id !in t.cancelled
    ensures t.due[id] <= t.now ==> HasRun(t.log, id)
    ensures HasRun(t.log, id) ==> t.due[id] <= t.floor <= t.now
  {
    assert Accounted(t.log, t.cancelled, t.heap.Repr, id);
  }

  lemma SoonerOrder()
    ensures WeakOrder(Sooner)
  {
  }
}
