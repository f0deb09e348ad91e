/** What goes wrong with readers of mailboxes, in runs from start-up. */
module KernelReaders {
  import opened Basics
  import opened Kernel
  import opened KernelRuns

  /** One core, one process and one mailbox, that it may read by token 1 and write to by token 2. */
  function Machine(core: Core, box: Box, threads: map<nat, Thread>, clock: nat, stale: set<nat>,
                   sent: seq<Message>, received: seq<Message>): State
  {
    State([core], [box], [Process(map[1 := 0, 2 := 1], true)], threads, map[0 := Reading(0), 1 := Writing(0)],
          clock, stale, [sent], [received])
  }

  lemma MachineSane(core: Core, box: Box, threads: map<nat, Thread>, clock: nat, stale: set<nat>, sent: seq<Message>, received: seq<Message>)
    requires core.current.Some? ==> core.current.value in threads
    requires (forall t :: t in core.ready ==> t in threads) && (forall t :: t in box.waiting ==> t in threads)
    requires forall t :: t in threads ==> threads[t].process == 0 && (threads[t].pending.Some? ==> threads[t].pending.value == 0)
    requires forall h :: Carry(h) !in box.queue
    ensures Sane(Machine(core, box, threads, clock, stale, sent, received))
  {
  }

  lemma Same(s: State, s': State)
    requires |s.cores| == |s'.cores| == 1 && s.cores[0] == s'.cores[0] && |s.boxes| == |s'.boxes| == 1 && s.boxes[0] == s'.boxes[0]
    requires |s.processes| == |s'.processes| == 1 && s.processes[0] == s'.processes[0]
    requires s.threads == s'.threads && s.grants == s'.grants && s.clock == s'.clock && s.stale == s'.stale
    requires |s.sent| == |s'.sent| == 1 && s.sent[0] == s'.sent[0] && |s.received| == |s'.received| == 1 && s.received[0] == s'.received[0]
    ensures s == s'
  {
    assert s.cores == s'.cores && s.boxes == s'.boxes && s.processes == s'.processes && s.sent == s'.sent && s.received == s'.received;
  }

  // ---------------------------------------------------------------------------------------
  // Up to a process with a mailbox and two threads

  function Running(): (s: State)
    ensures Sane(s)
  {
    State([Core(Some(0), {})], [], [Process(map[], true)], map[0 := Thread(0, 0, None)], map[], 1, {}, [], [])
  }

  function Made(): (s: State)
    ensures Sane(s)
  {
    MachineSane(Core(Some(0), {}), Box([], []), map[0 := Thread(0, 0, None)], 1, {}, [], []);
    Machine(Core(Some(0), {}), Box([], []), map[0 := Thread(0, 0, None)], 1, {}, [], [])
  }

  function Two(): (s: State)
    ensures Sane(s)
  {
    MachineSane(Core(Some(0), {1}), Box([], []), map[0 := Thread(0, 0, None), 1 := Thread(0, 1, None)], 2, {}, [], []);
    Machine(Core(Some(0), {1}), Box([], []), map[0 := Thread(0, 0, None), 1 := Thread(0, 1, None)], 2, {}, [], [])
  }

  lemma Dispatches()
    ensures Step(Boot(1), Preempt(0, 1, 0), Running())
  {
    var s := Boot(1);
    assert s.cores == [Core(None, {0})];
    assert Earliest(s, 0, 0);
    var s' := After(s, Preempt(0, 1, 0)).0;
    assert s'.cores[0] == Core(Some(0), {});
    assert s'.cores == Running().cores;
  }

  lemma Makes()
    ensures Step(Running(), CreateMailbox(0, 1, 2, 0, 1), Made())
  {
    hide Sane;
    var s' := After(Running(), CreateMailbox(0, 1, 2, 0, 1)).0;
    Same(s', Made());
  }

  lemma Spawns()
    ensures Step(Made(), Spawn(0, 0, 1, 1), Two())
  {
    hide Sane;
    var s' := After(Made(), Spawn(0, 0, 1, 1)).0;
    Same(s', Two());
  }

  // ---------------------------------------------------------------------------------------
  // A continuation is lost

  /** Thread 0 waits for a message, and thread 1 runs. */
  function Waiting(): (s: State)
    ensures Sane(s)
  {
    MachineSane(Core(Some(1), {}), Box([], [0]), map[0 := Thread(0, 2, Some(0)), 1 := Thread(0, 1, None)], 3, {}, [], []);
    Machine(Core(Some(1), {}), Box([], [0]), map[0 := Thread(0, 2, Some(0)), 1 := Thread(0, 1, None)], 3, {}, [], [])
  }

  /** Thread 1 wrote one, which woke thread 0. */
  function Written(): (s: State)
    ensures Sane(s)
  {
    MachineSane(Core(Some(1), {0}), Box([Data(7)], []), map[0 := Thread(0, 2, Some(0)), 1 := Thread(0, 1, None)], 3, {}, [Data(7)], []);
    Machine(Core(Some(1), {0}), Box([Data(7)], []), map[0 := Thread(0, 2, Some(0)), 1 := Thread(0, 1, None)], 3, {}, [Data(7)], [])
  }

  /** Thread 1 read it before thread 0 ran. */
  function Taken(): (s: State)
    ensures Sane(s)
  {
    MachineSane(Core(Some(1), {0}), Box([], []), map[0 := Thread(0, 2, Some(0)), 1 := Thread(0, 1, None)], 3, {}, [Data(7)], [Data(7)]);
    Machine(Core(Some(1), {0}), Box([], []), map[0 := Thread(0, 2, Some(0)), 1 := Thread(0, 1, None)], 3, {}, [Data(7)], [Data(7)])
  }

  /** Thread 0 runs. */
  function Resumed(): (s: State)
    ensures Sane(s)
  {
    MachineSane(Core(Some(0), {1}), Box([], []), map[0 := Thread(0, 2, Some(0)), 1 := Thread(0, 3, None)], 4, {0}, [Data(7)], [Data(7)]);
    Machine(Core(Some(0), {1}), Box([], []), map[0 := Thread(0, 2, Some(0)), 1 := Thread(0, 3, None)], 4, {0}, [Data(7)], [Data(7)])
  }

  /** It found nothing, and waits again. */
  function Lost(): State {
    Machine(Core(Some(1), {}), Box([], [0]), map[0 := Thread(0, 4, None), 1 := Thread(0, 3, None)], 5, {0}, [Data(7)], [Data(7)])
  }

  lemma Blocks()
    ensures Step(Two(), Read(0, 1, false, 2, 1, 0), Waiting())
  {
    hide Sane;
    var s := Two();
    assert Denial(s, 0, 1, ReadBox) == Ok && BoxVia(s, 0, 1) == 0;
    var s' := After(s, Read(0, 1, false, 2, 1, 0)).0;
    Same(s', Waiting());
  }

  lemma Writes()
    ensures Step(Waiting(), WriteData(0, 2, 7), Written())
  {
    hide Sane;
    var s := Waiting();
    assert Denial(s, 0, 2, WriteBox) == Ok && BoxVia(s, 0, 2) == 0;
    var s' := After(s, WriteData(0, 2, 7)).0;
    Same(s', Written());
  }

  lemma Takes()
    ensures Step(Written(), Read(0, 1, true, 3, 0, 0), Taken())
  {
    hide Sane;
    var s := Written();
    assert Denial(s, 0, 1, ReadBox) == Ok && BoxVia(s, 0, 1) == 0;
    var s' := After(s, Read(0, 1, true, 3, 0, 0)).0;
    Same(s', Taken());
  }

  lemma Changes()
    ensures Step(Taken(), Preempt(0, 3, 0), Resumed())
  {
    hide Sane;
    var s := Taken();
    assert Yield(s, 0, 3).cores[0].ready == {0, 1};
    var s' := After(s, Preempt(0, 3, 0)).0;
    Same(s', Resumed());
  }

  lemma Loses()
    ensures Step(Resumed(), Resume(0, 4, 1, 0), Lost())
  {
    hide Sane;
    var s' := After(Resumed(), Resume(0, 4, 1, 0)).0;
    Same(s', Lost());
  }

  /** A run from start-up after which thread 0 waits and will not go on with its read when it is woken. */
  lemma TwoReaders()
    ensures IsRun([Boot(1), Running(), Made(), Two(), Waiting(), Written(), Taken(), Resumed(), Lost()],
                  [Preempt(0, 1, 0), CreateMailbox(0, 1, 2, 0, 1), Spawn(0, 0, 1, 1), Read(0, 1, false, 2, 1, 0),
                   WriteData(0, 2, 7), Read(0, 1, true, 3, 0, 0), Preempt(0, 3, 0), Resume(0, 4, 1, 0)])
    ensures Lost().boxes[0].waiting == [0] && Lost().threads[0].pending.None?
  {
    hide Sane, Step, Boot, Running, Made, Two, Waiting, Written, Taken, Resumed;
    Dispatches();
    Makes();
    Spawns();
    Blocks();
    Writes();
    Takes();
    Changes();
    Loses();
  }

  // ---------------------------------------------------------------------------------------
  // A heap is broken, by two processes of one thread each

  /** One core, one mailbox, and a process that made another, by token 3. */
  function Pair(core: Core, box: Box, own: map<nat, nat>, child: Process, threads: map<nat, Thread>, clock: nat, stale: set<nat>): State {
    State([core], [box], [Process(own, true), child], threads,
          map[0 := Reading(0), 1 := Writing(0), 2 := Owning(1)], clock, stale, [[]], [[]])
  }

  lemma PairSane(core: Core, box: Box, own: map<nat, nat>, child: Process, threads: map<nat, Thread>, clock: nat, stale: set<nat>)
    requires core.current.Some? ==> core.current.value in threads
    requires (forall t :: t in core.ready ==> t in threads) && (forall t :: t in box.waiting ==> t in threads)
    requires forall t :: t in threads ==> threads[t].process < 2 && (threads[t].pending.Some? ==> threads[t].pending.value == 0)
    requires (forall k :: k in own ==> own[k] < 3) && (forall k :: k in child.handles ==> child.handles[k] < 3) && box.queue == []
    ensures Sane(Pair(core, box, own, child, threads, clock, stale))
  {
  }

  lemma SamePair(s: State, s': State)
    requires |s.cores| == |s'.cores| == 1 && s.cores[0] == s'.cores[0] && |s.boxes| == |s'.boxes| == 1 && s.boxes[0] == s'.boxes[0]
    requires |s.processes| == |s'.processes| == 2 && s.processes[0] == s'.processes[0] && s.processes[1] == s'.processes[1]
    requires s.threads == s'.threads && s.grants == s'.grants && s.clock == s'.clock && s.stale == s'.stale
    requires |s.sent| == |s'.sent| == 1 && s.sent[0] == s'.sent[0] && |s.received| == |s'.received| == 1 && s.received[0] == s'.received[0]
    ensures s == s'
  {
    assert s.cores == s'.cores && s.boxes == s'.boxes && s.processes == s'.processes && s.sent == s'.sent && s.received == s'.received;
  }

  /** Process 0 made process 1. */
  function Parent(): (s: State)
    ensures Sane(s)
  {
    PairSane(Core(Some(0), {}), Box([], []), map[1 := 0, 2 := 1, 3 := 2], Process(map[], false), map[0 := Thread(0, 0, None)], 1, {});
    Pair(Core(Some(0), {}), Box([], []), map[1 := 0, 2 := 1, 3 := 2], Process(map[], false), map[0 := Thread(0, 0, None)], 1, {})
  }

  /** It started that with the handle to read the mailbox. */
  function Child(): (s: State)
    ensures Sane(s)
  {
    PairSane(Core(Some(0), {1}), Box([], []), map[2 := 1, 3 := 2], Process(map[1 := 0], true),
             map[0 := Thread(0, 0, None), 1 := Thread(1, 1, None)], 2, {});
    Pair(Core(Some(0), {1}), Box([], []), map[2 := 1, 3 := 2], Process(map[1 := 0], true),
         map[0 := Thread(0, 0, None), 1 := Thread(1, 1, None)], 2, {})
  }

  /** Thread 1 of process 1 runs; it was taken out of a heap of two. */
  function Other(): (s: State)
    ensures Sane(s)
  {
    PairSane(Core(Some(1), {0}), Box([], []), map[2 := 1, 3 := 2], Process(map[1 := 0], true),
             map[0 := Thread(0, 2, None), 1 := Thread(1, 1, None)], 3, {1});
    Pair(Core(Some(1), {0}), Box([], []), map[2 := 1, 3 := 2], Process(map[1 := 0], true),
         map[0 := Thread(0, 2, None), 1 := Thread(1, 1, None)], 3, {1})
  }

  /** It waits for a message, and thread 0 runs. */
  function Linked(): (s: State)
    ensures Sane(s)
  {
    PairSane(Core(Some(0), {}), Box([], [1]), map[2 := 1, 3 := 2], Process(map[1 := 0], true),
             map[0 := Thread(0, 2, None), 1 := Thread(1, 3, Some(0))], 4, {1});
    Pair(Core(Some(0), {}), Box([], [1]), map[2 := 1, 3 := 2], Process(map[1 := 0], true),
         map[0 := Thread(0, 2, None), 1 := Thread(1, 3, Some(0))], 4, {1})
  }

  lemma Founds()
    ensures Step(Made(), CreateProcess(0, 3, 2), Parent())
  {
    hide Sane;
    var s' := After(Made(), CreateProcess(0, 3, 2)).0;
    SamePair(s', Parent());
  }

  lemma Starts()
    ensures Step(Parent(), Start(0, 3, 1, 1, 1, 1), Child())
  {
    hide Sane;
    var s := Parent();
    assert Denial(s, 0, 3, StartProcess) == Ok && ProcessVia(s, 0, 3) == 1 && Refusal(s, 0, 1) == Ok;
    assert Enabled(s, Start(0, 3, 1, 1, 1, 1));
    var s' := After(s, Start(0, 3, 1, 1, 1, 1)).0;
    SamePair(s', Child());
  }

  lemma Turns()
    ensures Step(Child(), Preempt(0, 2, 1), Other())
  {
    hide Sane;
    var s := Child();
    assert Yield(s, 0, 2).cores[0].ready == {0, 1};
    var s' := After(s, Preempt(0, 2, 1)).0;
    SamePair(s', Other());
  }

  lemma Links()
    ensures Step(Other(), Read(0, 1, false, 3, 0, 0), Linked())
  {
    hide Sane;
    var s := Other();
    assert Denial(s, 0, 1, ReadBox) == Ok && BoxVia(s, 0, 1) == 0;
    var s' := After(s, Read(0, 1, false, 3, 0, 0)).0;
    SamePair(s', Linked());
  }

  lemma Breaks()
    ensures Runs(Linked(), 0) && Denial(Linked(), 0, 2, WriteBox) == Ok && !Wakes(Linked(), BoxVia(Linked(), 0, 2))
  {
    hide Sane;
    assert Denial(Linked(), 0, 2, WriteBox) == Ok && BoxVia(Linked(), 0, 2) == 0;
    assert Lightest(Linked().cores, 1) == 0;
  }

  /** A run from start-up, with two processes of one thread each, after which a message would wake a thread
      that still has links into the heap that it was taken out of, and that is empty now. */
  lemma StaleLinks()
    ensures IsRun([Boot(1), Running(), Made(), Parent(), Child(), Other(), Linked()],
                  [Preempt(0, 1, 0), CreateMailbox(0, 1, 2, 0, 1), CreateProcess(0, 3, 2), Start(0, 3, 1, 1, 1, 1),
                   Preempt(0, 2, 1), Read(0, 1, false, 3, 0, 0)])
    ensures Runs(Linked(), 0) && Denial(Linked(), 0, 2, WriteBox) == Ok && !Wakes(Linked(), BoxVia(Linked(), 0, 2))
  {
    hide Sane, Step, Boot, Running, Made, Parent, Child, Other, Linked, Runs, Denial, Wakes;
    Dispatches();
    Makes();
    Founds();
    Starts();
    Turns();
    Links();
    Breaks();
  }
}
