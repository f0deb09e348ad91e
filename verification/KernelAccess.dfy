/** What each call may do, by the handles of the process that makes it: said of the states before and after, in
    terms of the handle tables alone. */
module KernelAccess {
  import opened Basics
  import opened Kernel

  /** The permissions of the handle that process `p` has under a token. */
  function Lookup(s: State, p: nat, token: nat): Option<Grant>
    requires p < |s.processes|
  {
    var table := s.processes[p].handles;
    if token in table && table[token] in s.grants then Some(s.grants[table[token]]) else None
  }

  /** The process that makes the call. */
  function Caller(s: State, c: nat): nat
    requires c < |s.cores| && s.cores[c].current.Some? && s.cores[c].current.value in s.threads
  {
    s.threads[s.cores[c].current.value].process
  }

  predicate Calls(s: State, c: nat) {
    && c < |s.cores| && s.cores[c].current.Some? && s.cores[c].current.value in s.threads
    && Caller(s, c) < |s.processes|
  }

  /** The caller has a handle under `via` to read, or to write, mailbox `b`. */
  predicate MayReadVia(s: State, c: nat, via: nat, b: nat) {
    Calls(s, c) && Lookup(s, Caller(s, c), via).Some? &&
    var g := Lookup(s, Caller(s, c), via).value; g.target == ToBox(b) && g.read
  }

  predicate MayWriteVia(s: State, c: nat, via: nat, b: nat) {
    Calls(s, c) && Lookup(s, Caller(s, c), via).Some? &&
    var g := Lookup(s, Caller(s, c), via).value; g.target == ToBox(b) && g.write
  }

  /** The caller may start process `p`. */
  predicate MayStartVia(s: State, c: nat, via: nat, p: nat) {
    Calls(s, c) && Lookup(s, Caller(s, c), via).Some? &&
    var g := Lookup(s, Caller(s, c), via).value; g.target == ToProcess(p) && g.write
  }

  /** The caller has handle `h` under a token, and may give it away. */
  predicate MayGiveAway(s: State, c: nat, token: nat, h: nat) {
    && Calls(s, c) && token in s.processes[Caller(s, c)].handles && s.processes[Caller(s, c)].handles[token] == h
    && h in s.grants && s.grants[h].transfer
  }

  /** The call writes message `m` to mailbox `b`, with the permission to. */
  predicate Writes(s: State, a: Action, b: nat, m: Message) {
    match a
    case WriteData(c, via, value) => MayWriteVia(s, c, via, b) && m == Data(value)
    case WriteHandle(c, via, token) => MayWriteVia(s, c, via, b) && m.Carry? && MayGiveAway(s, c, token, m.handle)
    case _ => false
  }

  /** The call reads from mailbox `b`: with the permission to, or in the middle of a read. */
  predicate Reads(s: State, a: Action, b: nat) {
    match a
    case Read(c, via, _, _, _, _) => MayReadVia(s, c, via, b)
    case Resume(c, _, _, _) => Calls(s, c) && s.threads[s.cores[c].current.value].pending == Some(b)
    case _ => false
  }

  /** The call starts process `p` and gives it handle `h`, with the permission to do both. */
  predicate Starts(s: State, a: Action, p: nat, h: nat) {
    a.Start? && MayStartVia(s, a.core, a.via, p) && MayGiveAway(s, a.core, a.bootstrap, h)
  }

  /** Thread `t` became ready on the first of the cores with the fewest ready threads. */
  ghost predicate Joins(cores: seq<Core>, cores': seq<Core>, t: nat) {
    exists k: nat ::
      && k < |cores| && cores' == cores[k := Core(cores[k].current, cores[k].ready + {t})]
      && (forall j: nat :: j < |cores| ==> |cores[k].ready| <= |cores[j].ready|)
      && (forall j: nat :: j < k ==> |cores[k].ready| < |cores[j].ready|)
  }

  // ---------------------------------------------------------------------------------------
  // What the moves do to mailboxes and processes

  lemma SentIs(s: State, b: nat, m: Message)
    requires b < |s.boxes| && |s.sent| == |s.boxes| && |s.cores| > 0
    ensures var s', w := Sent(s, b, m), s.boxes[b].waiting;
            && s'.sent == s.sent[b := s.sent[b] + [m]] && s'.received == s.received
            && s'.processes == s.processes && s'.grants == s.grants && s'.threads == s.threads
            && s'.boxes == s.boxes[b := Box(s.boxes[b].queue + [m], if w == [] then [] else w[1..])]
            && (if w == [] then s'.cores == s.cores else Joins(s.cores, s'.cores, w[0]))
  {
    var w := s.boxes[b].waiting;
    if w != [] {
      var k := Lightest(s.cores, |s.cores|);
      assert Sent(s, b, m).cores == s.cores[k := Core(s.cores[k].current, s.cores[k].ready + {w[0]})];
    }
  }

  lemma ReceivedIs(s: State, t: nat, b: nat, token: nat)
    requires t in s.threads && s.threads[t].process < |s.processes|
    requires b < |s.boxes| && |s.received| == |s.boxes| && s.boxes[b].queue != []
    ensures var s', m, p := Received(s, t, b, token), s.boxes[b].queue[0], s.threads[t].process;
            && s'.sent == s.sent && s'.received == s.received[b := s.received[b] + [m]]
            && s'.grants == s.grants && s'.threads == s.threads && s'.cores == s.cores
            && s'.boxes == s.boxes[b := Box(s.boxes[b].queue[1..], s.boxes[b].waiting)]
            && s'.processes == if m.Data? then s.processes
                               else s.processes[p := Process(s.processes[p].handles[token := m.handle], s.processes[p].started)]
  {
  }

  lemma ParkedIs(s: State, c: nat, now: nat, b: nat, pending: Option<nat>, next: nat)
    requires c < |s.cores| && s.cores[c].current.Some? && Current(s, c) in s.threads && b < |s.boxes|
    ensures var s', t := Parked(s, c, now, b, pending, next), Current(s, c);
            && s'.sent == s.sent && s'.received == s.received && s'.processes == s.processes && s'.grants == s.grants
            && s'.boxes == s.boxes[b := Box(s.boxes[b].queue, s.boxes[b].waiting + [t])]
            && s'.threads == s.threads[t := Thread(s.threads[t].process, now, pending)]
            && |s'.cores| == |s.cores| && s'.cores[c].current == (if s.cores[c].ready == {} then None else Some(next))
  {
  }

  lemma PreemptedIs(s: State, c: nat, now: nat, next: nat)
    requires c < |s.cores| && (s.cores[c].current.Some? ==> Current(s, c) in s.threads)
    ensures var s' := Preempted(s, c, now, next);
            && s'.sent == s.sent && s'.received == s.received && s'.processes == s.processes && s'.grants == s.grants
            && s'.boxes == s.boxes && s'.threads.Keys == s.threads.Keys
            && forall t :: t in s.threads ==> s'.threads[t].pending == s.threads[t].pending && s'.threads[t].process == s.threads[t].process
  {
  }

  lemma SpawnedIs(s: State, p: nat, thread: nat, now: nat)
    requires |s.cores| > 0
    ensures var s' := Spawned(s, p, thread, now);
            && s'.sent == s.sent && s'.received == s.received && s'.processes == s.processes && s'.grants == s.grants
            && s'.boxes == s.boxes && s'.threads == s.threads[thread := Thread(p, now, None)]
            && Joins(s.cores, s'.cores, thread)
  {
    var k := Lightest(s.cores, |s.cores|);
    assert Spawned(s, p, thread, now).cores == s.cores[k := Core(s.cores[k].current, s.cores[k].ready + {thread})];
  }

  // ---------------------------------------------------------------------------------------
  // Calls that use a handle

  /** The checks before the handlers, in terms of the handle tables. */
  lemma Denials(s: State, c: nat, via: nat, use: Use)
    requires Sane(s) && Runs(s, c)
    ensures Calls(s, c)
    ensures var denial, g := Denial(s, c, via, use), Lookup(s, Caller(s, c), via);
            && (denial == InvalidToken <==> g.None?)
            && (denial == WrongType <==> g.Some? && !(if use.StartProcess? then g.value.target.ToProcess? else g.value.target.ToBox?))
            && (denial == NotAllowed <==>
                  && g.Some? && (if use.StartProcess? then g.value.target.ToProcess? else g.value.target.ToBox?)
                  && !(if use.ReadBox? then g.value.read else g.value.write))
            && (denial == Ok <==>
                  && g.Some? && (if use.StartProcess? then g.value.target.ToProcess? else g.value.target.ToBox?)
                  && (if use.ReadBox? then g.value.read else g.value.write))
            && (g.Some? && g.value.target.ToBox? ==> g.value.target.box < |s.boxes|)
            && (g.Some? && g.value.target.ToProcess? ==> g.value.target.process < |s.processes|)
  {
    assert Granted(s);
  }

  lemma Refusals(s: State, c: nat, token: nat)
    requires Sane(s) && Runs(s, c)
    ensures Calls(s, c)
    ensures var refusal, g := Refusal(s, c, token), Lookup(s, Caller(s, c), token);
            && (refusal == InvalidToken <==> g.None?)
            && (refusal == NotAllowed <==> g.Some? && !g.value.transfer)
            && (refusal == Ok <==> g.Some? && g.value.transfer)
  {
  }

  lemma LaunchedMailSame(s: State, c: nat, via: nat, bootstrap: nat, token: nat, thread: nat, now: nat)
    requires Sane(s) && Runs(s, c) && Denial(s, c, via, StartProcess) == Ok && Refusal(s, c, bootstrap) == Ok
    ensures ProcessVia(s, c, via) < |s.processes| && bootstrap in Handles(s, c)
    ensures var p, from, h := ProcessVia(s, c, via), Caller(s, c), Handles(s, c)[bootstrap];
            var s' := Launched(s, from, bootstrap, p, token, h, thread, now);
            && s'.sent == s.sent && s'.received == s.received && s'.grants == s.grants && s'.boxes == s.boxes
            && s'.threads == s.threads[thread := Thread(p, now, None)]
            && s'.processes == Registered(Unregistered(Started(s, p), from, bootstrap), p, token, h).processes
            && Joins(s.cores, s'.cores, thread)
  {
    hide Joins, Spawned, Sane, Granted;
    Denials(s, c, via, StartProcess);
    Refusals(s, c, bootstrap);
    var p, from, h := ProcessVia(s, c, via), Caller(s, c), Handles(s, c)[bootstrap];
    assert |s.cores| > 0 by { assert Sane(s); }
    SpawnedIs(Registered(Unregistered(Started(s, p), from, bootstrap), p, token, h), p, thread, now);
  }

  /** A caller with the permission to write does write, exactly what it asked to, and to that mailbox only; the
      first reader that waits there becomes ready, on the core with the fewest ready threads; and a handle that is sent leaves the caller's table. */
  lemma WriterSends(s: State, a: Action, b: nat, m: Message)
    requires Sane(s) && Enabled(s, a) && Writes(s, a, b, m)
    ensures Calls(s, a.core) && b < |s.boxes| && After(s, a).1 == Ok
    ensures var s', w, p := After(s, a).0, s.boxes[b].waiting, Caller(s, a.core);
            && s'.sent == s.sent[b := s.sent[b] + [m]] && s'.received == s.received && s'.threads == s.threads && s'.grants == s.grants
            && s'.boxes == s.boxes[b := Box(s.boxes[b].queue + [m], if w == [] then [] else w[1..])]
            && (if w == [] then s'.cores == s.cores else Joins(s.cores, s'.cores, w[0]))
            && s'.processes == if a.WriteData? then s.processes
                               else s.processes[p := Process(s.processes[p].handles - {a.token}, s.processes[p].started)]
  {
    hide Sent, Granted, Wakes, Denial, Refusal, Joins;
    Denials(s, a.core, a.via, WriteBox);
    if a.WriteData? {
      SentIs(s, b, m);
    } else {
      Refusals(s, a.core, a.token);
      SentIs(Unregistered(s, Caller(s, a.core), a.token), b, m);
    }
  }

  /** A caller with the permission to read gets the first message: a handle goes into its table, under the new
      token, and data into no table. Without a message it is told so, if it polls, and waits otherwise. */
  lemma ReaderReceives(s: State, a: Action, b: nat)
    requires Sane(s) && Enabled(s, a) && Reads(s, a, b)
    ensures Calls(s, a.core) && b < |s.boxes|
    ensures var (s', r) := After(s, a);
            var t, p, box := s.cores[a.core].current.value, Caller(s, a.core), s.boxes[b];
            && s'.sent == s.sent && s'.grants == s.grants
            && if box.queue != [] then
                 var m := box.queue[0];
                 && r == Ok && s'.received == s.received[b := s.received[b] + [m]]
                 && s'.boxes == s.boxes[b := Box(box.queue[1..], box.waiting)] && s'.threads == s.threads[t := s.threads[t].(pending := None)]
                 && s'.processes == if m.Data? then s.processes
                                    else s.processes[p := Process(s.processes[p].handles[a.token := m.handle], s.processes[p].started)]
               else if a.Read? && a.poll then r == NotReady && s' == s
               else
                 && r == Blocked && s'.received == s.received && s'.processes == s.processes
                 && s'.boxes == s.boxes[b := Box([], box.waiting + [t])]
                 && s'.threads == s.threads[t := Thread(p, a.now, if a.Read? then Some(b) else None)]
                 && s'.cores[a.core].current == if s.cores[a.core].ready == {} then None else Some(a.next)
  {
    hide Lightest, Earliest, Parked, Received, Granted, Denial, CanRead;
    var c := a.core;
    var t := s.cores[c].current.value;
    if a.Read? {
      Denials(s, c, a.via, ReadBox);
      assert s.threads[t].pending.None?;
      assert s.threads == s.threads[t := s.threads[t].(pending := None)];
      if s.boxes[b].queue == [] { ParkedIs(s, c, a.now, b, Some(b), a.next); } else { ReceivedIs(s, t, b, a.token); }
    } else {
      if s.boxes[b].queue == [] { ParkedIs(s, c, a.now, b, None, a.next); } else { ReceivedIs(Continuing(s, t, None), t, b, a.token); }
    }
  }

  /** A caller with the permission to start a process does, unless it has been started: the process gets a thread,
      which becomes ready, and the handle, which leaves the caller's table. */
  lemma StarterStarts(s: State, a: Action, p: nat, h: nat)
    requires Sane(s) && Enabled(s, a) && Starts(s, a, p, h)
    ensures p < |s.processes|
    ensures var (s', r) := After(s, a);
            var from := Caller(s, a.core);
            if s.processes[p].started then r == InvalidArguments && s' == s
            else
              && r == Ok && s'.sent == s.sent && s'.received == s.received && s'.boxes == s.boxes && s'.grants == s.grants
              && s'.threads == s.threads[a.thread := Thread(p, a.now, None)]
              && Joins(s.cores, s'.cores, a.thread)
              && |s'.processes| == |s.processes| && s'.processes[p].started
              && a.token in s'.processes[p].handles && s'.processes[p].handles[a.token] == h
              && (from != p ==>
                    && s'.processes[from] == Process(s.processes[from].handles - {a.bootstrap}, s.processes[from].started)
                    && s'.processes[p].handles == s.processes[p].handles[a.token := h])
              && (from == p ==> s'.processes[p].handles == (s.processes[p].handles - {a.bootstrap})[a.token := h])
              && (forall q: nat :: q < |s.processes| && q != p && q != from ==> s'.processes[q] == s.processes[q])
  {
    hide Lightest, Launched, Granted, Denial, Refusal, Joins;
    Denials(s, a.core, a.via, StartProcess);
    Refusals(s, a.core, a.bootstrap);
    LaunchedMailSame(s, a.core, a.via, a.bootstrap, a.token, a.thread, a.now);
  }

  /** A call that changes anything has the permissions for what it does; the others touch no mailbox, and start at
      most the process that the kernel gives a thread. */
  lemma Acts(s: State, a: Action, s': State)
    requires Step(s, a, s') && s' != s
    ensures a.WriteData? || a.WriteHandle? ==> exists b, m :: Writes(s, a, b, m)
    ensures a.Read? || a.Resume? ==> exists b :: Reads(s, a, b)
    ensures a.Start? ==> exists p, h :: Starts(s, a, p, h)
    ensures Minor(a) ==> Quiet(s, a, s')
  {
    hide Lightest, Earliest, Preempted, Parked, Sent, Received, Launched, Spawned, Denial, Refusal, Granted, Wakes, Fits, CanRead, Quiet;
    var c := a.core;
    match a
    case Read(_, via, _, _, _, _) =>
      Denials(s, c, via, ReadBox);
      assert Reads(s, a, BoxVia(s, c, via));
    case Resume(_, _, _, _) => assert Reads(s, a, s.threads[Current(s, c)].pending.value);
    case WriteData(_, via, value) =>
      Denials(s, c, via, WriteBox);
      assert Writes(s, a, BoxVia(s, c, via), Data(value));
    case WriteHandle(_, via, token) =>
      Denials(s, c, via, WriteBox);
      Refusals(s, c, token);
      assert Writes(s, a, BoxVia(s, c, via), Carry(Handles(s, c)[token]));
    case Start(_, via, bootstrap, _, _, _) =>
      Denials(s, c, via, StartProcess);
      Refusals(s, c, bootstrap);
      assert Starts(s, a, ProcessVia(s, c, via), Handles(s, c)[bootstrap]);
    case _ => MinorQuiet(s, a, s');
  }

  /** The steps that need no handle. */
  predicate Minor(a: Action) {
    a.Preempt? || a.Release? || a.Spawn? || a.CreateMailbox? || a.CreateProcess? || a.CreateObject?
  }

  lemma PreemptQuiet(s: State, a: Action)
    requires Sane(s) && Enabled(s, a) && a.Preempt?
    ensures Quiet(s, a, After(s, a).0)
  {
    hide Granted, Preempted, Earliest;
    PreemptedIs(s, a.core, a.now, a.next);
  }

  lemma MinorQuiet(s: State, a: Action, s': State)
    requires Step(s, a, s') && Minor(a)
    ensures Quiet(s, a, s')
  {
    hide Enabled, After, Granted;
    if a.Preempt? {
      PreemptQuiet(s, a);
    } else if a.Spawn? {
      SpawnAdds(s, a);
    } else if a.Release? {
      ReleaseDrops(s, a);
    } else if a.CreateMailbox? {
      MailboxEnds(s, a);
    } else {
      ObjectHandles(s, a);
    }
  }

  /** Nothing is sent or received, nobody begins to read, and only a process that is given a thread is started. */
  ghost predicate Quiet(s: State, a: Action, s': State) {
    && s.boxes <= s'.boxes && s.sent <= s'.sent && s.received <= s'.received && |s'.sent| == |s'.received| == |s'.boxes|
    && |s.processes| <= |s'.processes|
    && (forall t :: t in s'.threads && s'.threads[t].pending.Some? ==> t in s.threads && s'.threads[t].pending == s.threads[t].pending)
    && (forall p: nat :: p < |s.processes| && s'.processes[p].started && !s.processes[p].started ==> a.Spawn? && a.process == p)
    && (a.CreateMailbox? || a.CreateProcess? || a.CreateObject? ||
        (s'.grants == s.grants && s'.boxes == s.boxes && |s'.processes| == |s.processes|))
  }

  /** A mailbox that a step adds messages to is one that the caller has a handle to write to, and what is added
      is what the caller asked to write. */
  lemma OnlyWriters(s: State, a: Action, s': State, b: nat)
    requires Step(s, a, s') && b < |s.boxes|
    ensures b < |s'.sent|
    ensures s'.sent[b] == s.sent[b] || exists m :: Writes(s, a, b, m) && s'.sent[b] == s.sent[b] + [m]
  {
    hide Granted, Enabled, After, Writes, Starts;
    if s' != s {
      Acts(s, a, s');
      if a.WriteData? || a.WriteHandle? {
        var x, m :| Writes(s, a, x, m);
        WriterSends(s, a, x, m);
      } else if a.Read? || a.Resume? {
        var x :| Reads(s, a, x);
        ReaderReceives(s, a, x);
      } else if a.Start? {
        var x, h :| Starts(s, a, x, h);
        StarterStarts(s, a, x, h);
      }
    }
  }

  /** A mailbox that a step takes messages from is one that the caller has a handle to read, or is in the middle
      of reading; and what is taken is the first message. */
  lemma OnlyReaders(s: State, a: Action, s': State, b: nat)
    requires Step(s, a, s') && b < |s.boxes|
    ensures b < |s'.received|
    ensures s'.received[b] == s.received[b]
            || (Reads(s, a, b) && s.boxes[b].queue != [] && s'.received[b] == s.received[b] + [s.boxes[b].queue[0]])
  {
    hide Granted, Enabled, After, Writes, Starts;
    if s' != s {
      Acts(s, a, s');
      if a.WriteData? || a.WriteHandle? {
        var x, m :| Writes(s, a, x, m);
        WriterSends(s, a, x, m);
      } else if a.Read? || a.Resume? {
        var x :| Reads(s, a, x);
        ReaderReceives(s, a, x);
      } else if a.Start? {
        var x, h :| Starts(s, a, x, h);
        StarterStarts(s, a, x, h);
      }
    }
  }

  /** A thread comes to be in the middle of reading a mailbox by a read of its own, with the permission to, that
      found no message. */
  lemma OnlyReadersWait(s: State, a: Action, s': State, t: nat, b: nat)
    requires Step(s, a, s') && t in s'.threads && s'.threads[t].pending == Some(b)
    ensures t in s.threads
    ensures s.threads[t].pending == Some(b)
            || (a.Read? && MayReadVia(s, a.core, a.via, b) && !a.poll && s.cores[a.core].current == Some(t) && b < |s.boxes| && s.boxes[b].queue == [])
  {
    hide Granted, Enabled, After, Writes, Starts;
    if s' != s {
      Acts(s, a, s');
      if a.WriteData? || a.WriteHandle? {
        var x, m :| Writes(s, a, x, m);
        WriterSends(s, a, x, m);
      } else if a.Read? || a.Resume? {
        var x :| Reads(s, a, x);
        ReaderReceives(s, a, x);
      } else if a.Start? {
        var x, h :| Starts(s, a, x, h);
        StarterStarts(s, a, x, h);
      }
    }
  }

  /** A thread comes to wait at a mailbox only by reading from it, with the permission to or in the middle of a read,
      when there is no message. */
  lemma OnlyReadersPark(s: State, a: Action, s': State, t: nat, b: nat)
    requires Step(s, a, s') && b < |s.boxes| && b < |s'.boxes| && t in s'.boxes[b].waiting && t !in s.boxes[b].waiting
    ensures Reads(s, a, b) && s.cores[a.core].current == Some(t) && s.boxes[b].queue == []
  {
    hide Granted, Enabled, After, Writes, Starts;
    Acts(s, a, s');
    if a.WriteData? || a.WriteHandle? {
      var x, m :| Writes(s, a, x, m);
      WriterSends(s, a, x, m);
    } else if a.Read? || a.Resume? {
      var x :| Reads(s, a, x);
      ReaderReceives(s, a, x);
    } else if a.Start? {
      var x, h :| Starts(s, a, x, h);
      StarterStarts(s, a, x, h);
    }
  }

  /** A process is started only by a caller with the permission to, or by the kernel giving it a thread. */
  lemma OnlyStarters(s: State, a: Action, s': State, p: nat)
    requires Step(s, a, s') && p < |s.processes| && !s.processes[p].started
    ensures p < |s'.processes|
    ensures s'.processes[p].started ==> (exists h :: Starts(s, a, p, h)) || (a.Spawn? && a.process == p)
  {
    hide Granted, Enabled, After, Writes, Starts;
    if s' != s {
      Acts(s, a, s');
      if a.WriteData? || a.WriteHandle? {
        var x, m :| Writes(s, a, x, m);
        WriterSends(s, a, x, m);
      } else if a.Read? || a.Resume? {
        var x :| Reads(s, a, x);
        ReaderReceives(s, a, x);
      } else if a.Start? {
        var x, h :| Starts(s, a, x, h);
        StarterStarts(s, a, x, h);
      }
    }
  }

  /** No other step makes handles. */
  lemma NoOtherHandles(s: State, a: Action, s': State)
    requires Step(s, a, s') && !a.CreateMailbox? && !a.CreateProcess? && !a.CreateObject?
    ensures s'.grants == s.grants && |s'.boxes| == |s.boxes| && |s'.processes| == |s.processes|
  {
    hide Granted, Enabled, After, Writes, Starts;
    if s' != s {
      Acts(s, a, s');
      if a.WriteData? || a.WriteHandle? {
        var x, m :| Writes(s, a, x, m);
        WriterSends(s, a, x, m);
      } else if a.Read? || a.Resume? {
        var x :| Reads(s, a, x);
        ReaderReceives(s, a, x);
      } else if a.Start? {
        var x, h :| Starts(s, a, x, h);
        StarterStarts(s, a, x, h);
      }
    }
  }

  /** Preempting a core stamps its thread and makes it ready; then the one with the lowest timestamp of all that are
      ready there runs, and the other cores are as they were. */
  lemma PreemptSwitches(s: State, a: Action)
    requires Sane(s) && Enabled(s, a) && a.Preempt?
    ensures var (s', r) := After(s, a);
            var current := s.cores[a.core].current;
            var ready := s.cores[a.core].ready + if current.Some? then {current.value} else {};
            && r == Ok && s'.boxes == s.boxes && s'.sent == s.sent && s'.received == s.received
            && s'.processes == s.processes && s'.grants == s.grants
            && s'.threads == (if current.Some? then s.threads[current.value := s.threads[current.value].(stamp := a.now)] else s.threads)
            && (if ready == {} then s'.cores == s.cores
                else
                  && s'.cores == s.cores[a.core := Core(Some(a.next), ready - {a.next})] && a.next in ready && a.next in s'.threads
                  && forall t :: t in ready && t in s'.threads ==> s'.threads[a.next].stamp <= s'.threads[t].stamp)
  {
    hide Granted;
  }

  /** Releasing a token takes it out of the caller's table, and does nothing else; token zero is ignored. */
  lemma ReleaseDrops(s: State, a: Action)
    requires Sane(s) && Enabled(s, a) && a.Release?
    ensures Calls(s, a.core) && After(s, a).1 == Ok
    ensures var s', p := After(s, a).0, Caller(s, a.core);
            s' == if a.token == 0 then s
                  else s.(processes := s.processes[p := Process(s.processes[p].handles - {a.token}, s.processes[p].started)])
  {
  }

  /** The kernel gives a process a thread: it becomes ready, on the core with the fewest ready threads, and the process
      counts as started. */
  lemma SpawnAdds(s: State, a: Action)
    requires Sane(s) && Enabled(s, a) && a.Spawn?
    ensures var (s', r), p := After(s, a), a.process;
            && r == Ok && p < |s.processes| && s'.boxes == s.boxes && s'.sent == s.sent && s'.received == s.received
            && s'.processes == s.processes[p := Process(s.processes[p].handles, true)] && s'.grants == s.grants
            && s'.threads == s.threads[a.thread := Thread(p, a.now, None)] && Joins(s.cores, s'.cores, a.thread)
  {
    hide Spawned, Joins;
    SpawnedIs(Started(s, a.process), a.process, a.thread, a.now);
  }

  /** What a caller is told, by the handles it has. */
  lemma Codes(s: State, a: Action)
    requires Sane(s) && Enabled(s, a) && (a.Read? || a.WriteData? || a.WriteHandle? || a.Start?)
    ensures Calls(s, a.core)
    ensures var r, p := After(s, a).1, Caller(s, a.core);
            var g := Lookup(s, p, a.via);
            var fitting := g.Some? && if a.Start? then g.value.target.ToProcess? else g.value.target.ToBox?;
            var allowed := fitting && if a.Read? then g.value.read else g.value.write;
            var gift := if a.WriteHandle? then Lookup(s, p, a.token) else if a.Start? then Lookup(s, p, a.bootstrap) else None;
            var gives := a.WriteHandle? || a.Start?;
            && (r == InvalidToken <==> g.None? || (allowed && gives && gift.None?))
            && (r == WrongType <==> g.Some? && !fitting)
            && (r == NotAllowed <==> (fitting && !allowed) || (allowed && gives && gift.Some? && !gift.value.transfer))
            && (r == InvalidArguments <==>
                  && a.Start? && allowed && gift.Some? && gift.value.transfer
                  && g.value.target.process < |s.processes| && s.processes[g.value.target.process].started)
            && (r == NotReady || r == Blocked ==> a.Read? && allowed)
  {
    hide Lightest, Earliest, Parked, Sent, Received, Launched, Granted, Denial, Refusal, CanRead, Wakes;
    Denials(s, a.core, a.via, if a.Read? then ReadBox else if a.Start? then StartProcess else WriteBox);
    if a.WriteHandle? {
      Refusals(s, a.core, a.token);
    } else if a.Start? {
      Refusals(s, a.core, a.bootstrap);
    }
  }

  // ---------------------------------------------------------------------------------------
  // New objects

  /** Making a mailbox makes two handles to it: one to read and not to write, one to write and not to read. Both
      can be given away. */
  lemma MailboxEnds(s: State, a: Action)
    requires Sane(s) && Enabled(s, a) && a.CreateMailbox?
    ensures Calls(s, a.core)
    ensures var s', b, p := After(s, a).0, |s.boxes|, Caller(s, a.core);
            && s'.boxes == s.boxes + [Box([], [])] && s'.sent == s.sent + [[]] && s'.received == s.received + [[]]
            && s'.threads == s.threads && s'.cores == s.cores
            && s'.processes == s.processes[p := Process(s.processes[p].handles[a.readToken := a.reader][a.writeToken := a.writer], s.processes[p].started)]
            && Lookup(s', p, a.readToken) == Some(Grant(ToBox(b), true, false, true))
            && Lookup(s', p, a.writeToken) == Some(Grant(ToBox(b), false, true, true))
            && s'.grants.Keys == s.grants.Keys + {a.reader, a.writer}
  {
  }

  /** Making a process makes one handle to it, which can do all; so does making any other object, but whether its
      handle can be given away is up to the kind of object. */
  lemma ObjectHandles(s: State, a: Action)
    requires Sane(s) && Enabled(s, a) && (a.CreateProcess? || a.CreateObject?)
    ensures Calls(s, a.core)
    ensures var s', p := After(s, a).0, Caller(s, a.core);
            && s'.boxes == s.boxes && s'.sent == s.sent && s'.received == s.received && s'.threads == s.threads && s'.cores == s.cores
            && s'.processes == s.processes[p := Process(s.processes[p].handles[a.token := a.handle], s.processes[p].started)]
                               + (if a.CreateProcess? then [Process(map[], false)] else [])
            && s'.grants.Keys == s.grants.Keys + {a.handle}
            && (a.CreateProcess? ==>
                  && s'.grants[a.handle] == Grant(ToProcess(|s.processes|), true, true, true))
            && (a.CreateObject? ==>
                  && s'.grants[a.handle] == Grant(ToOther, true, true, a.transfer))
  {
  }
}
