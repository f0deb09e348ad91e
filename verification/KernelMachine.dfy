/** Whole runs of the handlers on linked queues and trees. */
module KernelMachine {
  import opened Basics
  import opened Kernel
  import opened KernelPlaces
  import opened KernelRuns
  import opened KernelAccess
  import opened KernelObjects
  import opened KernelCalls
  import AvlShape
  import AvlLinks

  /** A system call or interrupt, with what the world outside determines: the time, the readings of the
      clock for new tokens, and the names of new threads and handles. */
  datatype Call =
    | Tick(core: nat, now: nat)
    | Receive(core: nat, via: nat, poll: bool, now: nat, readings: seq<bv64>)
    | Continue(core: nat, now: nat, readings: seq<bv64>)
    | Put(core: nat, via: nat, value: nat)
    | Give(core: nat, via: nat, token: nat)
    | Drop(core: nat, token: nat)
    | Begin(core: nat, via: nat, bootstrap: nat, thread: nat, now: nat, readings: seq<bv64>)
    | Add(core: nat, process: nat, thread: nat, now: nat)
    | MakeMailbox(core: nat, reader: nat, writer: nat, readings: seq<bv64>, more: seq<bv64>)
    | MakeProcess(core: nat, handle: nat, readings: seq<bv64>)
    | MakeObject(core: nat, handle: nat, transfer: bool, readings: seq<bv64>)

  /** What came of a call: it cannot be made now, it would break a heap, or it read a child of a tree that is
      not there. */
  datatype Reply = Went | Refused | Breaks | Faults

  /** The clock advances, and gives more readings than any process has tokens. */
  ghost predicate Enough(s: State, readings: seq<bv64>) {
    Advancing(readings) && forall p :: 0 <= p < |s.processes| ==> |readings| > |s.processes[p].handles| + 1
  }

  /** A thread is there to make the call, at a time still to come, with new names. Releasing a token that is
      not in use is a panic. */
  ghost predicate Possible(s: State, call: Call)
    requires Sane(s)
  {
    match call
    case Tick(c, now) => c < |s.cores| && (s.cores[c].current.Some? ==> Runs(s, c)) && Later(s, now)
    case Receive(c, _, _, now, readings) => Runs(s, c) && Later(s, now) && Enough(s, readings)
    case Continue(c, now, readings) =>
      && c < |s.cores| && s.cores[c].current.Some? && s.threads[Current(s, c)].pending.Some?
      && Later(s, now) && Enough(s, readings)
    case Put(c, _, _) => Runs(s, c)
    case Give(c, _, _) => Runs(s, c)
    case Drop(c, token) => Runs(s, c) && (token == 0 || token in Handles(s, c))
    case Begin(c, _, _, thread, now, readings) => Runs(s, c) && thread !in s.threads && Later(s, now) && Enough(s, readings)
    case Add(c, p, thread, now) => Runs(s, c) && p < |s.processes| && thread !in s.threads && Later(s, now)
    case MakeMailbox(c, reader, writer, readings, more) =>
      && Runs(s, c) && reader !in s.grants && writer !in s.grants && reader != writer
      && Enough(s, readings) && Enough(s, more)
    case MakeProcess(c, handle, readings) => Runs(s, c) && handle !in s.grants && Enough(s, readings)
    case MakeObject(c, handle, _, readings) => Runs(s, c) && handle !in s.grants && Enough(s, readings)
  }

  /** The action is one that the call stands for. */
  predicate Answers(call: Call, a: Action) {
    match call
    case Tick(c, now) => a.Preempt? && a.core == c && a.now == now
    case Receive(c, via, poll, now, _) => a.Read? && a.core == c && a.via == via && a.poll == poll && a.now == now
    case Continue(c, now, _) => a.Resume? && a.core == c && a.now == now
    case Put(c, via, value) => a == WriteData(c, via, value)
    case Give(c, via, token) => a == WriteHandle(c, via, token)
    case Drop(c, token) => a == Release(c, token)
    case Begin(c, via, bootstrap, thread, now, _) =>
      a.Start? && a.core == c && a.via == via && a.bootstrap == bootstrap && a.thread == thread && a.now == now
    case Add(c, p, thread, now) => a == Spawn(c, p, thread, now)
    case MakeMailbox(c, reader, writer, _, _) => a.CreateMailbox? && a.core == c && a.reader == reader && a.writer == writer
    case MakeProcess(c, handle, _) => a.CreateProcess? && a.core == c && a.handle == handle
    case MakeObject(c, handle, transfer, _) => a.CreateObject? && a.core == c && a.handle == handle && a.transfer == transfer
  }

  /** What the caller is told: how the call went, and the message if it read one. */
  ghost predicate Tells(s: State, a: Action, code: Result, content: Option<Content>) {
    && Sane(s) && Enabled(s, a) && code == After(s, a).1
    && content ==
       match a {
         case Read(c, via, _, _, _, token) =>
           if Denial(s, c, via, ReadBox) == Ok && s.boxes[BoxVia(s, c, via)].queue != [] then Some(First(s.boxes[BoxVia(s, c, via)], token)) else None
         case Resume(c, _, _, token) =>
           var b := s.threads[Current(s, c)].pending.value;
           if s.boxes[b].queue != [] then Some(First(s.boxes[b], token)) else None
         case _ => None
       }
  }

  lemma TellsOk(s: State, a: Action)
    requires Sane(s) && Enabled(s, a) && (a.Spawn? || a.CreateMailbox? || a.CreateProcess? || a.CreateObject?)
    ensures Tells(s, a, Ok, None)
  {
    hide Spawned, Opened, Founded, NewHandle, Granted;
  }

  lemma TellsRead(s: State, a: Action, code: Result, content: Option<Content>)
    requires Sane(s) && Enabled(s, a) && code == After(s, a).1
    requires code != Ok ==> content == None
    requires code == Ok && a.Read? && Denial(s, a.core, a.via, ReadBox) == Ok && s.boxes[BoxVia(s, a.core, a.via)].queue != [] ==>
               content == Some(First(s.boxes[BoxVia(s, a.core, a.via)], a.token))
    requires code == Ok && a.Resume? && s.boxes[s.threads[Current(s, a.core)].pending.value].queue != [] ==>
               content == Some(First(s.boxes[s.threads[Current(s, a.core)].pending.value], a.token))
    ensures a.Read? || a.Resume? ==> Tells(s, a, code, content)
  {
    hide Parked, Received, Earliest, Granted, Denial;
  }

  /** A reader gets the first message as it was written: data, or a token that stands for the handle from now on. */
  lemma ReaderTold(s: State, a: Action, b: nat, code: Result, content: Option<Content>)
    requires Tells(s, a, code, content) && Reads(s, a, b)
    ensures b < |s.boxes| && (s.boxes[b].queue == [] ==> content == None)
    ensures s.boxes[b].queue != [] ==>
              match s.boxes[b].queue[0] {
                case Data(value) => content == Some(Plain(value))
                case Carry(h) =>
                  && content == Some(Token(a.token)) && |After(s, a).0.processes| == |s.processes|
                  && After(s, a).0.processes[Caller(s, a.core)].handles == s.processes[Caller(s, a.core)].handles[a.token := h]
              }
  {
    hide Denial, Granted, Enabled, After;
    ReaderReceives(s, a, b);
    if a.Read? {
      StillRuns(s, a);
      Denials(s, a.core, a.via, ReadBox);
    }
  }

  lemma StillRuns(s: State, a: Action)
    requires Sane(s) && Enabled(s, a) && a.Read?
    ensures Runs(s, a.core)
  {
  }

  /** The process and the token that the call drops, if it gets that far. */
  ghost function Drops(s: State, call: Call): Option<(nat, nat)>
    requires Sane(s) && Possible(s, call)
  {
    match call
    case Give(c, via, token) => Gives(s, c, via, token)
    case Drop(c, token) => Releases(s, c, token)
    case Begin(c, via, bootstrap, _, _, _) => Hands(s, c, via, bootstrap)
    case _ => None
  }

  /** The call wakes a thread that has links left over and would be alone in its heap. */
  ghost predicate Wrecks(s: State, call: Call)
    requires Sane(s) && Possible(s, call)
  {
    match call
    case Put(c, via, value) => !Enabled(s, WriteData(c, via, value))
    case Give(c, via, token) => !Enabled(s, WriteHandle(c, via, token))
    case _ => false
  }

  type Shape = AvlShape.Tree<AvlLinks.Element<Filed>>

  /** The trees of the handle tables, as values. */
  ghost function Shapes(m: Machine): seq<Shape>
    reads m`tables, set x | x in m.tables :: x.tree
  {
    var tables := m.tables;
    seq(|tables|, p requires 0 <= p < |tables| reads (set x | x in tables :: x.tree) => tables[p].tree.tree)
  }

  /** The call leaves a tree of these shapes unbalanced. */
  ghost predicate Tumbles(s: State, shapes: seq<Shape>, call: Call) {
    && Sane(s) && Possible(s, call)
    && var drop := Drops(s, call);
       drop.Some? && drop.value.0 < |shapes| && Topples(shapes[drop.value.0], drop.value.1)
  }

  lemma FallsIs(m: Machine, call: Call)
    requires m.Valid() && Sane(m.Snapshot()) && Possible(m.Snapshot(), call)
    ensures m.Falls(Drops(m.Snapshot(), call)) <==> Tumbles(m.Snapshot(), Shapes(m), call)
  {
    hide Sane, Possible, Drops, Topples, Machine.BoxesOk, HandleTable.Valid;
    var drop := Drops(m.Snapshot(), call);
    if drop.Some? && drop.value.0 < |m.tables| {
      m.TableHere(drop.value.0);
    }
  }

  /** The call leaves a tree unbalanced. */
  ghost predicate Falling(m: Machine, call: Call)
    requires m.Valid() && Sane(m.Snapshot())
    reads m, m.queueParts, m.tableParts
    ensures Falling(m, call) <==> Tumbles(m.Snapshot(), Shapes(m), call)
  {
    if Possible(m.Snapshot(), call) then FallsIs(m, call); m.Falls(Drops(m.Snapshot(), call)) else false
  }

  // ---------------------------------------------------------------------------------------
  // What the world outside leaves to be found out

  lemma TableSize(m: Machine, p: nat)
    requires m.TablesOk() && p < |m.tables|
    ensures |m.processes| == |m.tables| && m.tables[p].tree.size == |m.processes[p].handles|
  {
    m.TableHere(p);
    m.tables[p].SizeIs();
  }

  method Plenty(m: Machine, readings: seq<bv64>) returns (yes: bool)
    requires m.Valid()
    ensures yes <==> Enough(m.Snapshot(), readings)
  {
    hide Advancing, Machine.BoxesOk, Machine.TablesOk;
    yes := Advancing(readings);
    m.Sizes();
    for p := 0 to |m.tables|
      invariant yes <==> Advancing(readings) && forall q :: 0 <= q < p ==> |readings| > |m.processes[q].handles| + 1
    {
      TableSize(m, p);
      yes := yes && |readings| > m.tables[p].tree.size + 1;
    }
  }

  /** Core `c` runs a thread that can make calls. */
  predicate CanCall(m: Machine, c: nat)
    reads m
  {
    && c < |m.cores| && m.cores[c].current.Some? && m.cores[c].current.value in m.threads
    && m.threads[m.cores[c].current.value].pending.None?
  }

  /** A thread with the lowest timestamp. */
  method Soonest(m: Machine, ready: set<nat>) returns (next: nat)
    requires ready != {} && forall t :: t in ready ==> t in m.threads
    ensures next in ready && forall t :: t in ready ==> m.threads[next].stamp <= m.threads[t].stamp
  {
    next :| next in ready;
    var left := ready - {next};
    while left != {}
      invariant left <= ready && next in ready
      invariant forall t :: t in ready && t !in left ==> m.threads[next].stamp <= m.threads[t].stamp
      decreases |left|
    {
      var t :| t in left;
      if m.threads[t].stamp < m.threads[next].stamp {
        next := t;
      }
      left := left - {t};
    }
  }

  /** The thread that core `c` takes next, when its current one is stamped with `now` and goes on waiting. */
  method NextFor(m: Machine, c: nat, now: nat, ghost place: map<nat, Where>) returns (next: nat)
    requires Sane(m.Snapshot()) && Placed(m.Snapshot(), place) && c < |m.cores| && m.cores[c].current.Some?
    ensures forall b: nat :: b < |m.boxes| ==> Earliest(Park(m.Snapshot(), c, now, b), c, next)
  {
    hide Granted;
    next := 0;
    if m.cores[c].ready != {} {
      next := Soonest(m, m.cores[c].ready);
    }
    ghost var t := m.cores[c].current.value;
    assert Is(m.Snapshot(), t, Running(c));
    assert !Is(m.Snapshot(), t, Ready(c));
  }

  /** The thread that core `c` takes next, when its current one, if any, is stamped with `now` and ready. */
  method NextAfter(m: Machine, c: nat, now: nat) returns (next: nat)
    requires Sane(m.Snapshot()) && c < |m.cores| && (m.cores[c].current.Some? ==> m.cores[c].current.value in m.threads)
    ensures Earliest(if m.cores[c].current.Some? then Yield(m.Snapshot(), c, now) else m.Snapshot(), c, next)
  {
    hide Granted;
    if m.cores[c].current.None? {
      next := 0;
      if m.cores[c].ready != {} {
        next := Soonest(m, m.cores[c].ready);
      }
      return;
    }
    var t := m.cores[c].current.value;
    next := t;
    if m.cores[c].ready - {t} != {} {
      var other := Soonest(m, m.cores[c].ready - {t});
      if m.threads[other].stamp < now {
        next := other;
      }
    }
    ghost var s := Yield(m.Snapshot(), c, now);
    assert s.cores[c].ready == m.cores[c].ready + {t} && s.threads == m.threads[t := m.threads[t].(stamp := now)];
    forall u | u in s.cores[c].ready && u in s.threads
      ensures s.threads[next].stamp <= s.threads[u].stamp
    {
      assert u != t ==> u in m.cores[c].ready - {t};
    }
  }

  // ---------------------------------------------------------------------------------------
  // Calls

  method Interrupt(m: Machine, call: Call, ghost place: map<nat, Where>)
    returns (reply: Reply, code: Result, content: Option<Content>, ghost a: Action)
    requires m.Valid() && Sane(m.Snapshot()) && Placed(m.Snapshot(), place) && call.Tick?
    modifies m, m.queueParts, m.tableParts
    ensures reply.Went? ==>
              && m.Valid() && Step(old(m.Snapshot()), a, m.Snapshot()) && Answers(call, a)
              && Tells(old(m.Snapshot()), a, code, content)
              && fresh(m.queueParts - old(m.queueParts)) && fresh(m.tableParts - old(m.tableParts))
    ensures reply.Refused? <==> !Possible(old(m.Snapshot()), call)
    ensures reply.Breaks? ==> Wrecks(old(m.Snapshot()), call)
    ensures reply.Faults? ==> !old(m.Sturdy()) || old(Falling(m, call))
    ensures reply.Went? && old(m.Sturdy()) && !old(Falling(m, call)) ==> m.Sturdy()
  {
    hide Machine.BoxesOk, Machine.TablesOk, Machine.Sturdy, Machine.Falls, Sane, Placed, Granted, Enough, Advancing;
    var Tick(c, now) := call;
    a := Preempt(c, now, 0);
    if c >= |m.cores| || (m.cores[c].current.Some? && !CanCall(m, c)) || now < m.clock {
      return Refused, Ok, None, a;
    }
    m.NothingFalls();
    var next := NextAfter(m, c, now);
    a := Preempt(c, now, next);
    m.Reschedule(c, now, next);
    return Went, Ok, None, a;
  }

  method CallRead(m: Machine, call: Call, ghost place: map<nat, Where>)
    returns (reply: Reply, code: Result, content: Option<Content>, ghost a: Action)
    requires m.Valid() && Sane(m.Snapshot()) && Placed(m.Snapshot(), place) && call.Receive?
    modifies m, m.queueParts, m.tableParts
    ensures reply.Went? ==>
              && m.Valid() && Step(old(m.Snapshot()), a, m.Snapshot()) && Answers(call, a)
              && Tells(old(m.Snapshot()), a, code, content)
              && fresh(m.queueParts - old(m.queueParts)) && fresh(m.tableParts - old(m.tableParts))
    ensures reply.Refused? <==> !Possible(old(m.Snapshot()), call)
    ensures reply.Breaks? ==> Wrecks(old(m.Snapshot()), call)
    ensures reply.Faults? ==> !old(m.Sturdy()) || old(Falling(m, call))
    ensures reply.Went? && old(m.Sturdy()) && !old(Falling(m, call)) ==> m.Sturdy()
  {
    hide Machine.BoxesOk, Machine.TablesOk, Machine.Sturdy, Machine.Falls, Sane, Placed, Granted, Enough, Advancing, Earliest, Park, After;
    var Receive(c, via, poll, now, readings) := call;
    a := Read(c, via, poll, now, 0, 0);
    var enough := Plenty(m, readings);
    if !CanCall(m, c) || now < m.clock || !enough {
      return Refused, Ok, None, a;
    }
    m.NothingFalls();
    EnoughFor(m.Snapshot(), c, readings);
    m.SaneHere(c);
    var next := NextFor(m, c, now, place);
    ghost var token;
    var ok;
    code, ok, token, content := m.MailboxRead(c, via, poll, now, next, readings);
    a := Read(c, via, poll, now, next, token);
    TellsRead(old(m.Snapshot()), a, code, content);
    return if ok then Went else Faults, code, content, a;
  }

  method CallContinue(m: Machine, call: Call, ghost place: map<nat, Where>)
    returns (reply: Reply, code: Result, content: Option<Content>, ghost a: Action)
    requires m.Valid() && Sane(m.Snapshot()) && Placed(m.Snapshot(), place) && call.Continue?
    modifies m, m.queueParts, m.tableParts
    ensures reply.Went? ==>
              && m.Valid() && Step(old(m.Snapshot()), a, m.Snapshot()) && Answers(call, a)
              && Tells(old(m.Snapshot()), a, code, content)
              && fresh(m.queueParts - old(m.queueParts)) && fresh(m.tableParts - old(m.tableParts))
    ensures reply.Refused? <==> !Possible(old(m.Snapshot()), call)
    ensures reply.Breaks? ==> Wrecks(old(m.Snapshot()), call)
    ensures reply.Faults? ==> !old(m.Sturdy()) || old(Falling(m, call))
    ensures reply.Went? && old(m.Sturdy()) && !old(Falling(m, call)) ==> m.Sturdy()
  {
    hide Machine.BoxesOk, Machine.TablesOk, Machine.Sturdy, Machine.Falls, Sane, Placed, Granted, Enough, Advancing, Earliest, Park, After;
    var Continue(c, now, readings) := call;
    a := Resume(c, now, 0, 0);
    var enough := Plenty(m, readings);
    if c >= |m.cores| || m.cores[c].current.None? || now < m.clock || !enough {
      return Refused, Ok, None, a;
    }
    m.SaneHere(c);
    if m.threads[m.cores[c].current.value].pending.None? {
      return Refused, Ok, None, a;
    }
    m.NothingFalls();
    EnoughFor(m.Snapshot(), c, readings);
    var next := NextFor(m, c, now, place);
    ghost var token;
    var ok;
    code, ok, token, content := m.InvokeContinuation(c, now, next, readings);
    a := Resume(c, now, next, token);
    TellsRead(old(m.Snapshot()), a, code, content);
    return if ok then Went else Faults, code, content, a;
  }

  method CallWrite(m: Machine, call: Call, ghost place: map<nat, Where>)
    returns (reply: Reply, code: Result, content: Option<Content>, ghost a: Action)
    requires m.Valid() && Sane(m.Snapshot()) && Placed(m.Snapshot(), place) && call.Put?
    modifies m, m.queueParts, m.tableParts
    ensures reply.Went? ==>
              && m.Valid() && Step(old(m.Snapshot()), a, m.Snapshot()) && Answers(call, a)
              && Tells(old(m.Snapshot()), a, code, content)
              && fresh(m.queueParts - old(m.queueParts)) && fresh(m.tableParts - old(m.tableParts))
    ensures reply.Refused? <==> !Possible(old(m.Snapshot()), call)
    ensures reply.Breaks? ==> Wrecks(old(m.Snapshot()), call)
    ensures reply.Faults? ==> !old(m.Sturdy()) || old(Falling(m, call))
    ensures reply.Went? && old(m.Sturdy()) && !old(Falling(m, call)) ==> m.Sturdy()
  {
    hide Machine.BoxesOk, Machine.TablesOk, Machine.Sturdy, Machine.Falls, Sane, Placed, Granted, Enough, Advancing, After;
    a := WriteData(call.core, call.via, call.value);
    if !CanCall(m, call.core) {
      return Refused, Ok, None, a;
    }
    m.NothingFalls();
    m.PlacedApart(place);
    var r, fits := m.MailboxWriteData(call.core, call.via, call.value);
    return if fits then Went else Breaks, r, None, a;
  }

  method CallSend(m: Machine, call: Call, ghost place: map<nat, Where>)
    returns (reply: Reply, code: Result, content: Option<Content>, ghost a: Action)
    requires m.Valid() && Sane(m.Snapshot()) && Placed(m.Snapshot(), place) && call.Give?
    modifies m, m.queueParts, m.tableParts
    ensures reply.Went? ==>
              && m.Valid() && Step(old(m.Snapshot()), a, m.Snapshot()) && Answers(call, a)
              && Tells(old(m.Snapshot()), a, code, content)
              && fresh(m.queueParts - old(m.queueParts)) && fresh(m.tableParts - old(m.tableParts))
    ensures reply.Refused? <==> !Possible(old(m.Snapshot()), call)
    ensures reply.Breaks? ==> Wrecks(old(m.Snapshot()), call)
    ensures reply.Faults? ==> !old(m.Sturdy()) || old(Falling(m, call))
    ensures reply.Went? && old(m.Sturdy()) && !old(Falling(m, call)) ==> m.Sturdy()
  {
    hide Machine.BoxesOk, Machine.TablesOk, Machine.Sturdy, Machine.Falls, Sane, Placed, Granted, Enough, Advancing, After;
    a := WriteHandle(call.core, call.via, call.token);
    if !CanCall(m, call.core) {
      return Refused, Ok, None, a;
    }
    m.PlacedApart(place);
    var r, ok, fits := m.MailboxWriteHandle(call.core, call.via, call.token);
    return if !ok then Faults else if fits then Went else Breaks, r, None, a;
  }

  method CallRelease(m: Machine, call: Call, ghost place: map<nat, Where>)
    returns (reply: Reply, code: Result, content: Option<Content>, ghost a: Action)
    requires m.Valid() && Sane(m.Snapshot()) && Placed(m.Snapshot(), place) && call.Drop?
    modifies m, m.queueParts, m.tableParts
    ensures reply.Went? ==>
              && m.Valid() && Step(old(m.Snapshot()), a, m.Snapshot()) && Answers(call, a)
              && Tells(old(m.Snapshot()), a, code, content)
              && fresh(m.queueParts - old(m.queueParts)) && fresh(m.tableParts - old(m.tableParts))
    ensures reply.Refused? <==> !Possible(old(m.Snapshot()), call)
    ensures reply.Breaks? ==> Wrecks(old(m.Snapshot()), call)
    ensures reply.Faults? ==> !old(m.Sturdy()) || old(Falling(m, call))
    ensures reply.Went? && old(m.Sturdy()) && !old(Falling(m, call)) ==> m.Sturdy()
  {
    hide Machine.BoxesOk, Machine.TablesOk, Machine.Sturdy, Machine.Falls, Sane, Placed, Granted, Enough, Advancing, After;
    a := Release(call.core, call.token);
    if !CanCall(m, call.core) {
      return Refused, Ok, None, a;
    }
    m.SaneHere(call.core);
    m.Sizes();
    var found := m.GetHandle(m.threads[m.cores[call.core].current.value].process, call.token);
    if call.token != 0 && found.None? {
      return Refused, Ok, None, a;
    }
    var r, ok := m.TokenRelease(call.core, call.token);
    return if ok then Went else Faults, r, None, a;
  }

  method CallStart(m: Machine, call: Call, ghost place: map<nat, Where>)
    returns (reply: Reply, code: Result, content: Option<Content>, ghost a: Action)
    requires m.Valid() && Sane(m.Snapshot()) && Placed(m.Snapshot(), place) && call.Begin?
    modifies m, m.queueParts, m.tableParts
    ensures reply.Went? ==>
              && m.Valid() && Step(old(m.Snapshot()), a, m.Snapshot()) && Answers(call, a)
              && Tells(old(m.Snapshot()), a, code, content)
              && fresh(m.queueParts - old(m.queueParts)) && fresh(m.tableParts - old(m.tableParts))
    ensures reply.Refused? <==> !Possible(old(m.Snapshot()), call)
    ensures reply.Breaks? ==> Wrecks(old(m.Snapshot()), call)
    ensures reply.Faults? ==> !old(m.Sturdy()) || old(Falling(m, call))
    ensures reply.Went? && old(m.Sturdy()) && !old(Falling(m, call)) ==> m.Sturdy()
  {
    hide Machine.BoxesOk, Machine.TablesOk, Machine.Sturdy, Machine.Falls, Sane, Placed, Granted, Enough, Advancing, After;
    var Begin(c, via, bootstrap, thread, now, readings) := call;
    a := Start(c, via, bootstrap, 0, thread, now);
    var enough := Plenty(m, readings);
    if !CanCall(m, c) || thread in m.threads || now < m.clock || !enough {
      return Refused, Ok, None, a;
    }
    m.SaneHere(c);
    EnoughVia(m.Snapshot(), c, via, readings);
    ghost var token;
    var r, ok;
    r, ok, token := m.ProcessStart(c, via, bootstrap, thread, now, readings);
    a := Start(c, via, bootstrap, token, thread, now);
    return if ok then Went else Faults, r, None, a;
  }

  method CallSpawn(m: Machine, call: Call, ghost place: map<nat, Where>)
    returns (reply: Reply, code: Result, content: Option<Content>, ghost a: Action)
    requires m.Valid() && Sane(m.Snapshot()) && Placed(m.Snapshot(), place) && call.Add?
    modifies m, m.queueParts, m.tableParts
    ensures reply.Went? ==>
              && m.Valid() && Step(old(m.Snapshot()), a, m.Snapshot()) && Answers(call, a)
              && Tells(old(m.Snapshot()), a, code, content)
              && fresh(m.queueParts - old(m.queueParts)) && fresh(m.tableParts - old(m.tableParts))
    ensures reply.Refused? <==> !Possible(old(m.Snapshot()), call)
    ensures reply.Breaks? ==> Wrecks(old(m.Snapshot()), call)
    ensures reply.Faults? ==> !old(m.Sturdy()) || old(Falling(m, call))
    ensures reply.Went? && old(m.Sturdy()) && !old(Falling(m, call)) ==> m.Sturdy()
  {
    hide Machine.BoxesOk, Machine.TablesOk, Machine.Sturdy, Machine.Falls, Sane, Placed, Granted, Enough, Advancing, After;
    var Add(c, p, thread, now) := call;
    a := Spawn(c, p, thread, now);
    m.Sizes();
    if !CanCall(m, c) || p >= |m.tables| || thread in m.threads || now < m.clock {
      return Refused, Ok, None, a;
    }
    m.NothingFalls();
    m.CreateThread(c, p, thread, now);
    TellsOk(old(m.Snapshot()), a);
    return Went, Ok, None, a;
  }

  method CallMailbox(m: Machine, call: Call, ghost place: map<nat, Where>)
    returns (reply: Reply, code: Result, content: Option<Content>, ghost a: Action)
    requires m.Valid() && Sane(m.Snapshot()) && Placed(m.Snapshot(), place) && call.MakeMailbox?
    modifies m, m.queueParts, m.tableParts
    ensures reply.Went? ==>
              && m.Valid() && Step(old(m.Snapshot()), a, m.Snapshot()) && Answers(call, a)
              && Tells(old(m.Snapshot()), a, code, content)
              && fresh(m.queueParts - old(m.queueParts)) && fresh(m.tableParts - old(m.tableParts))
    ensures reply.Refused? <==> !Possible(old(m.Snapshot()), call)
    ensures reply.Breaks? ==> Wrecks(old(m.Snapshot()), call)
    ensures reply.Faults? ==> !old(m.Sturdy()) || old(Falling(m, call))
    ensures reply.Went? && old(m.Sturdy()) && !old(Falling(m, call)) ==> m.Sturdy()
  {
    hide Machine.BoxesOk, Machine.TablesOk, Machine.Sturdy, Machine.Falls, Sane, Placed, Granted, Enough, Advancing, After;
    var MakeMailbox(c, reader, writer, readings, more) := call;
    a := CreateMailbox(c, 0, 0, reader, writer);
    var enough := Plenty(m, readings);
    var enough' := Plenty(m, more);
    if !CanCall(m, c) || reader in m.grants || writer in m.grants || reader == writer || !enough || !enough' {
      return Refused, Ok, None, a;
    }
    m.NothingFalls();
    EnoughFor(m.Snapshot(), c, readings);
    EnoughFor(m.Snapshot(), c, more);
    var readToken, writeToken, ok := m.MailboxCreate(c, reader, writer, readings, more);
    a := CreateMailbox(c, readToken, writeToken, reader, writer);
    if ok {
      TellsOk(old(m.Snapshot()), a);
    }
    return if ok then Went else Faults, Ok, None, a;
  }

  method CallProcess(m: Machine, call: Call, ghost place: map<nat, Where>)
    returns (reply: Reply, code: Result, content: Option<Content>, ghost a: Action)
    requires m.Valid() && Sane(m.Snapshot()) && Placed(m.Snapshot(), place) && call.MakeProcess?
    modifies m, m.queueParts, m.tableParts
    ensures reply.Went? ==>
              && m.Valid() && Step(old(m.Snapshot()), a, m.Snapshot()) && Answers(call, a)
              && Tells(old(m.Snapshot()), a, code, content)
              && fresh(m.queueParts - old(m.queueParts)) && fresh(m.tableParts - old(m.tableParts))
    ensures reply.Refused? <==> !Possible(old(m.Snapshot()), call)
    ensures reply.Breaks? ==> Wrecks(old(m.Snapshot()), call)
    ensures reply.Faults? ==> !old(m.Sturdy()) || old(Falling(m, call))
    ensures reply.Went? && old(m.Sturdy()) && !old(Falling(m, call)) ==> m.Sturdy()
  {
    hide Machine.BoxesOk, Machine.TablesOk, Machine.Sturdy, Machine.Falls, Sane, Placed, Granted, Enough, Advancing, After;
    var MakeProcess(c, handle, readings) := call;
    a := CreateProcess(c, 0, handle);
    var enough := Plenty(m, readings);
    if !CanCall(m, c) || handle in m.grants || !enough {
      return Refused, Ok, None, a;
    }
    m.NothingFalls();
    EnoughFor(m.Snapshot(), c, readings);
    var token, ok := m.ProcessCreate(c, handle, readings);
    a := CreateProcess(c, token, handle);
    TellsOk(old(m.Snapshot()), a);
    return if ok then Went else Faults, Ok, None, a;
  }

  method CallObject(m: Machine, call: Call, ghost place: map<nat, Where>)
    returns (reply: Reply, code: Result, content: Option<Content>, ghost a: Action)
    requires m.Valid() && Sane(m.Snapshot()) && Placed(m.Snapshot(), place) && call.MakeObject?
    modifies m, m.queueParts, m.tableParts
    ensures reply.Went? ==>
              && m.Valid() && Step(old(m.Snapshot()), a, m.Snapshot()) && Answers(call, a)
              && Tells(old(m.Snapshot()), a, code, content)
              && fresh(m.queueParts - old(m.queueParts)) && fresh(m.tableParts - old(m.tableParts))
    ensures reply.Refused? <==> !Possible(old(m.Snapshot()), call)
    ensures reply.Breaks? ==> Wrecks(old(m.Snapshot()), call)
    ensures reply.Faults? ==> !old(m.Sturdy()) || old(Falling(m, call))
    ensures reply.Went? && old(m.Sturdy()) && !old(Falling(m, call)) ==> m.Sturdy()
  {
    hide Machine.BoxesOk, Machine.TablesOk, Machine.Sturdy, Machine.Falls, Sane, Placed, Granted, Enough, Advancing, After;
    var MakeObject(c, handle, transfer, readings) := call;
    a := CreateObject(c, 0, handle, transfer);
    var enough := Plenty(m, readings);
    if !CanCall(m, c) || handle in m.grants || !enough {
      return Refused, Ok, None, a;
    }
    m.NothingFalls();
    EnoughFor(m.Snapshot(), c, readings);
    var token, ok := m.ObjectCreate(c, handle, transfer, readings);
    a := CreateObject(c, token, handle, transfer);
    TellsOk(old(m.Snapshot()), a);
    return if ok then Went else Faults, Ok, None, a;
  }

  lemma EnoughFor(s: State, c: nat, readings: seq<bv64>)
    requires Sane(s) && c < |s.cores| && s.cores[c].current.Some? && Enough(s, readings)
    ensures var p := s.threads[Current(s, c)].process;
            p < |s.processes| && Advancing(readings) && |readings| > |s.processes[p].handles| + 1
  {
  }

  lemma EnoughVia(s: State, c: nat, via: nat, readings: seq<bv64>)
    requires Sane(s) && Runs(s, c) && s.threads[Current(s, c)].process < |s.processes| && Enough(s, readings)
    ensures ReadsEnough(s, c, via, readings)
  {
  }

  /** One call. */
  method Perform(m: Machine, call: Call, ghost place: map<nat, Where>)
    returns (reply: Reply, code: Result, content: Option<Content>, ghost a: Action)
    requires m.Valid() && Sane(m.Snapshot()) && Placed(m.Snapshot(), place)
    modifies m, m.queueParts, m.tableParts
    ensures reply.Went? ==>
              && m.Valid() && Step(old(m.Snapshot()), a, m.Snapshot()) && Answers(call, a)
              && Tells(old(m.Snapshot()), a, code, content)
              && fresh(m.queueParts - old(m.queueParts)) && fresh(m.tableParts - old(m.tableParts))
    ensures reply.Refused? <==> !Possible(old(m.Snapshot()), call)
    ensures reply.Breaks? ==> Wrecks(old(m.Snapshot()), call)
    ensures reply.Faults? ==> !old(m.Sturdy()) || old(Falling(m, call))
    ensures reply.Went? && old(m.Sturdy()) && !old(Falling(m, call)) ==> m.Sturdy()
  {
    hide Sane, Placed, Step, Answers, Possible, Wrecks, Drops, Tells, Machine.Valid, Machine.Sturdy, Machine.Falls;
    match call {
      case Tick(_, _) =>
        reply, code, content, a := Interrupt(m, call, place);
      case Receive(_, _, _, _, _) =>
        reply, code, content, a := CallRead(m, call, place);
      case Continue(_, _, _) =>
        reply, code, content, a := CallContinue(m, call, place);
      case Put(_, _, _) =>
        reply, code, content, a := CallWrite(m, call, place);
      case Give(_, _, _) =>
        reply, code, content, a := CallSend(m, call, place);
      case Drop(_, _) =>
        reply, code, content, a := CallRelease(m, call, place);
      case Begin(_, _, _, _, _, _) =>
        reply, code, content, a := CallStart(m, call, place);
      case Add(_, _, _, _) =>
        reply, code, content, a := CallSpawn(m, call, place);
      case MakeMailbox(_, _, _, _, _) =>
        reply, code, content, a := CallMailbox(m, call, place);
      case MakeProcess(_, _, _) =>
        reply, code, content, a := CallProcess(m, call, place);
      case MakeObject(_, _, _, _) =>
        reply, code, content, a := CallObject(m, call, place);
    }
  }

  // ---------------------------------------------------------------------------------------
  // Runs

  /** Every run of calls from a state that the kernel can reach, up to the first that does not go through,
      with the reason. What the queues, trees and cores hold goes through a run of the steps; so all that
      holds in every state of every such run holds of the machine. As long as no call leaves a tree
      unbalanced, none reads a child that is not there. */
  method Run(m: Machine, calls: seq<Call>, ghost count: nat, ghost ss0: seq<State>, ghost actions0: seq<Action>)
    returns (done: nat, reply: Reply, codes: seq<Result>, contents: seq<Option<Content>>,
             ghost ss: seq<State>, ghost actions: seq<Action>, ghost shapes: seq<seq<Shape>>)
    requires m.Valid() && count > 0 && IsRun(ss0, actions0) && ss0[0] == Boot(count) && ss0[|actions0|] == m.Snapshot()
    modifies m, m.queueParts, m.tableParts
    ensures done <= |calls| && (reply.Went? <==> done == |calls|)
    ensures IsRun(ss, actions) && |actions| == |actions0| + done && ss0 <= ss && actions0 <= actions
    ensures forall i :: 0 <= i < done ==> Answers(calls[i], actions[|actions0| + i])
    ensures |codes| == |contents| == done
    ensures forall i :: 0 <= i < done ==> Tells(ss[|actions0| + i], actions[|actions0| + i], codes[i], contents[i])
    ensures reply.Went? ==> m.Valid() && ss[|actions|] == m.Snapshot()
    ensures Sane(ss[|actions|]) && (reply.Refused? ==> !Possible(ss[|actions|], calls[done]))
    ensures reply.Breaks? || reply.Faults? ==> Possible(ss[|actions|], calls[done])
    ensures reply.Breaks? ==> Wrecks(ss[|actions|], calls[done])
    ensures |shapes| == done + 1 && shapes[0] == old(Shapes(m))
    ensures reply.Faults? && old(m.Sturdy()) ==>
              exists i :: 0 <= i <= done && Tumbles(ss[|actions0| + i], shapes[i], calls[i])
    ensures reply.Went? && old(m.Sturdy()) && !m.Sturdy() ==>
              exists i :: 0 <= i < done && Tumbles(ss[|actions0| + i], shapes[i], calls[i])
  {
    hide Sane, Placed, Step, Answers, Possible, Wrecks, Drops, Tumbles, Boot, Shapes, Good, Tells,
         Machine.Valid, Machine.Sturdy, Machine.Falls, Machine.Snapshot;
    ghost var n := |actions0|;
    done, reply, ss, actions, shapes := 0, Went, ss0, actions0, [Shapes(m)];
    codes, contents := [], [];
    ghost var sturdy := StandsUp(m);
    ghost var place := GoodHere(count, ss, actions);
    while done < |calls|
      invariant done <= |calls| && reply.Went? && m.Valid() && |actions| == n + done && |shapes| == done + 1
      invariant IsRun(ss, actions) && ss0 <= ss && actions0 <= actions && ss[|actions|] == m.Snapshot()
      invariant forall i :: 0 <= i < done ==> Answers(calls[i], actions[n + i])
      invariant |codes| == |contents| == done
      invariant forall i :: 0 <= i < done ==> Tells(ss[n + i], actions[n + i], codes[i], contents[i])
      invariant shapes[0] == old(Shapes(m)) && shapes[done] == Shapes(m)
      invariant Sane(ss[|actions|]) && Placed(ss[|actions|], place)
      invariant fresh(m.queueParts - old(m.queueParts)) && fresh(m.tableParts - old(m.tableParts))
      invariant StandsUp(m) || !sturdy || exists i :: 0 <= i < done && Tumbles(ss[n + i], shapes[i], calls[i])
    {
      ghost var s, stood := m.Snapshot(), StandsUp(m);
      ghost var falls := Falling(m, calls[done]);
      ghost var a;
      var code, content;
      reply, code, content, a := Perform(m, calls[done], place);
      if !reply.Went? {
        assert reply.Faults? && sturdy ==> exists i :: 0 <= i <= done && Tumbles(ss[n + i], shapes[i], calls[i]);
        return;
      }
      ghost var was, kinds := ss, shapes;
      RunGrows(ss, actions, a, m.Snapshot());
      ss, actions, shapes := ss + [m.Snapshot()], actions + [a], shapes + [Shapes(m)];
      codes, contents := codes + [code], contents + [content];
      place := GoodHere(count, ss, actions);
      if falls {
        assert Tumbles(ss[n + done], shapes[done], calls[done]);
      }
      assert forall i :: 0 <= i < done ==> ss[n + i] == was[n + i] && shapes[i] == kinds[i];
      done := done + 1;
    }
  }

  /** Every tree is balanced. */
  ghost predicate StandsUp(m: Machine)
    requires m.Valid()
    reads m, m.queueParts, m.tableParts
  {
    m.Sturdy()
  }

  lemma GoodHere(count: nat, ss: seq<State>, actions: seq<Action>) returns (place: map<nat, Where>)
    requires count > 0 && IsRun(ss, actions) && ss[0] == Boot(count)
    ensures Sane(ss[|actions|]) && Placed(ss[|actions|], place)
  {
    hide Sane, Placed, Step, Boot;
    var spots;
    place, spots := Reachable(count, ss, actions, |actions|);
  }

  lemma RunGrows(ss: seq<State>, actions: seq<Action>, a: Action, s: State)
    requires IsRun(ss, actions) && Step(ss[|actions|], a, s)
    ensures IsRun(ss + [s], actions + [a])
  {
    hide Step;
  }
}
