/** Threads, mailboxes and handles, one step for each system call or interrupt. */
module Kernel {
  import opened Basics

  /** A processor core: the thread it runs, if not the idle thread, and the threads that are ready on
      it, of which the one with the lowest timestamp is next. */
  datatype Core = Core(current: Option<nat>, ready: set<nat>)

  datatype Message = Carry(handle: nat) | Data(value: nat)

  datatype Box = Box(queue: seq<Message>, waiting: seq<nat>)

  datatype Process = Process(handles: map<nat, nat>, started: bool)

  /** `pending` is the mailbox that the thread is in the middle of reading from: its continuation. */
  datatype Thread = Thread(process: nat, stamp: nat, pending: Option<nat>)

  datatype Target = ToBox(box: nat) | ToProcess(process: nat) | ToOther

  /** What a handle leads to, and what it may be used for. */
  datatype Grant = Grant(target: Target, read: bool, write: bool, transfer: bool)

  /** `grants` describes the handles ever made, and `sent` and `received` record the messages of each
      mailbox so far. The links of a thread are in the thread, for heaps and queues alike; `stale`
      are the threads whose links still lead somewhere after they were taken out. */
  datatype State = State(cores: seq<Core>, boxes: seq<Box>, processes: seq<Process>, threads: map<nat, Thread>,
                         grants: map<nat, Grant>, clock: nat, stale: set<nat>,
                         sent: seq<seq<Message>>, received: seq<seq<Message>>)

  /** What a reader gets: data, or a handle under a new token. */
  datatype Content = Plain(value: nat) | Token(token: nat)

  datatype Result = Ok | NotReady | Blocked | InvalidToken | WrongType | NotAllowed | InvalidArguments

  ghost predicate TargetOk(s: State, g: Grant) {
    match g.target
    case ToBox(b) => b < |s.boxes|
    case ToProcess(p) => p < |s.processes|
    case ToOther => true
  }

  /** Handles are known, and lead to something. */
  ghost predicate Granted(s: State) {
    && (forall p: nat, k :: p < |s.processes| && k in s.processes[p].handles ==> s.processes[p].handles[k] in s.grants)
    && (forall b: nat, h :: b < |s.boxes| && Carry(h) in s.boxes[b].queue ==> h in s.grants)
    && (forall h :: h in s.grants ==> TargetOk(s, s.grants[h]))
  }

  /** All references lead somewhere. */
  ghost predicate Sane(s: State) {
    && |s.cores| > 0 && |s.sent| == |s.boxes| == |s.received|
    && (forall c: nat :: c < |s.cores| && s.cores[c].current.Some? ==> s.cores[c].current.value in s.threads)
    && (forall c: nat, t :: c < |s.cores| && t in s.cores[c].ready ==> t in s.threads)
    && (forall b: nat, t :: b < |s.boxes| && t in s.boxes[b].waiting ==> t in s.threads)
    && (forall t :: t in s.threads ==> s.threads[t].process < |s.processes|)
    && (forall t :: t in s.threads && s.threads[t].pending.Some? ==> s.threads[t].pending.value < |s.boxes|)
    && Granted(s)
  }

  // ---------------------------------------------------------------------------------------
  // The moves that calls are made of

  function Stamped(s: State, t: nat, now: nat): State
    requires t in s.threads
  {
    s.(threads := s.threads[t := s.threads[t].(stamp := now)], clock := now + 1)
  }

  /** Thread `t` goes into the heap of core `k`. Its links are set, unless the heap is empty. */
  function Pushed(s: State, k: nat, t: nat): State
    requires k < |s.cores|
  {
    s.(cores := s.cores[k := s.cores[k].(ready := s.cores[k].ready + {t})],
       stale := if s.cores[k].ready == {} then s.stale else s.stale - {t})
  }

  /** A thread may go into the heap of core `k`: in an empty heap its links must lead nowhere. */
  predicate Fits(s: State, k: nat, t: nat)
    requires k < |s.cores|
  {
    s.cores[k].ready == {} ==> t !in s.stale
  }

  /** The current thread of core `c` becomes ready on it. */
  function Yield(s: State, c: nat, now: nat): State
    requires c < |s.cores| && s.cores[c].current.Some? && s.cores[c].current.value in s.threads
  {
    var t := s.cores[c].current.value;
    Pushed(Stamped(s.(cores := s.cores[c := s.cores[c].(current := None)]), t, now), c, t)
  }

  /** The current thread of core `c` comes to wait at mailbox `b`. */
  function Park(s: State, c: nat, now: nat, b: nat): State
    requires c < |s.cores| && s.cores[c].current.Some? && s.cores[c].current.value in s.threads && b < |s.boxes|
  {
    var t := s.cores[c].current.value;
    Stamped(s.(cores := s.cores[c := s.cores[c].(current := None)],
               boxes := s.boxes[b := s.boxes[b].(waiting := s.boxes[b].waiting + [t])]), t, now)
  }

  /** A core without a current thread takes `next` from those ready on it, or goes idle. */
  function Dispatch(s: State, c: nat, next: nat): State
    requires c < |s.cores|
  {
    if s.cores[c].ready == {} then s
    else s.(cores := s.cores[c := Core(Some(next), s.cores[c].ready - {next})],
            stale := if |s.cores[c].ready| >= 2 then s.stale + {next} else s.stale)
  }

  /** The first core with the fewest ready threads. */
  function Lightest(cores: seq<Core>, n: nat): (k: nat)
    requires 1 <= n <= |cores|
    ensures k < n
    ensures forall j: nat :: j < n ==> |cores[k].ready| <= |cores[j].ready|
    ensures forall j: nat :: j < k ==> |cores[k].ready| < |cores[j].ready|
  {
    if n == 1 then 0
    else
      var k := Lightest(cores, n - 1);
      if |cores[n - 1].ready| < |cores[k].ready| then n - 1 else k
  }

  /** Thread `t` becomes ready on the lightest core. */
  function Place(s: State, t: nat): State
    requires |s.cores| > 0
  {
    Pushed(s, Lightest(s.cores, |s.cores|), t)
  }

  function Queued(s: State, b: nat, message: Message): State
    requires b < |s.boxes| && |s.sent| == |s.boxes|
  {
    s.(boxes := s.boxes[b := s.boxes[b].(queue := s.boxes[b].queue + [message])],
       sent := s.sent[b := s.sent[b] + [message]])
  }

  /** The first thread that waits at mailbox `b` leaves its queue. */
  function Unwaited(s: State, b: nat): State
    requires b < |s.boxes| && s.boxes[b].waiting != []
  {
    var w := s.boxes[b].waiting;
    s.(boxes := s.boxes[b := s.boxes[b].(waiting := w[1..])],
       stale := if |w| >= 2 then s.stale + {w[0]} else s.stale)
  }

  /** The first thread that waits at mailbox `b`, if any, becomes ready. */
  function Woken(s: State, b: nat): State
    requires b < |s.boxes| && |s.cores| > 0
  {
    if s.boxes[b].waiting == [] then s else Place(Unwaited(s, b), s.boxes[b].waiting[0])
  }

  /** Waking the first thread that waits at mailbox `b` breaks no heap. */
  predicate Wakes(s: State, b: nat)
    requires b < |s.boxes| && |s.cores| > 0
  {
    s.boxes[b].waiting != [] ==> Fits(Unwaited(s, b), Lightest(s.cores, |s.cores|), s.boxes[b].waiting[0])
  }

  function Unqueued(s: State, b: nat): State
    requires b < |s.boxes| && |s.received| == |s.boxes| && s.boxes[b].queue != []
  {
    s.(boxes := s.boxes[b := s.boxes[b].(queue := s.boxes[b].queue[1..])],
       received := s.received[b := s.received[b] + [s.boxes[b].queue[0]]])
  }

  function Registered(s: State, p: nat, token: nat, handle: nat): State
    requires p < |s.processes|
  {
    s.(processes := s.processes[p := s.processes[p].(handles := s.processes[p].handles[token := handle])])
  }

  function Unregistered(s: State, p: nat, token: nat): State
    requires p < |s.processes|
  {
    s.(processes := s.processes[p := s.processes[p].(handles := s.processes[p].handles - {token})])
  }

  function Continuing(s: State, t: nat, pending: Option<nat>): State
    requires t in s.threads
  {
    s.(threads := s.threads[t := s.threads[t].(pending := pending)])
  }

  // ---------------------------------------------------------------------------------------
  // Calls

  /** What happens, with what the call does not determine: the time, which of the ready threads with
      the lowest timestamp the heap gives, new tokens and new names. */
  datatype Action =
    | Preempt(core: nat, now: nat, next: nat)
    | Read(core: nat, via: nat, poll: bool, now: nat, next: nat, token: nat)
    | Resume(core: nat, now: nat, next: nat, token: nat)
    | WriteData(core: nat, via: nat, value: nat)
    | WriteHandle(core: nat, via: nat, token: nat)
    | Release(core: nat, token: nat)
    | Start(core: nat, via: nat, bootstrap: nat, token: nat, thread: nat, now: nat)
    | Spawn(core: nat, process: nat, thread: nat, now: nat)
    | CreateMailbox(core: nat, readToken: nat, writeToken: nat, reader: nat, writer: nat)
    | CreateProcess(core: nat, token: nat, handle: nat)
    | CreateObject(core: nat, token: nat, handle: nat, transfer: bool)

  /** `next` is what the heap may give: with none ready it does not matter. */
  ghost predicate Earliest(s: State, c: nat, next: nat)
    requires c < |s.cores|
  {
    s.cores[c].ready != {} ==>
      && next in s.cores[c].ready && next in s.threads
      && (forall t :: t in s.cores[c].ready && t in s.threads ==> s.threads[next].stamp <= s.threads[t].stamp)
  }

  /** Core `c` runs a thread that is not in the middle of a read. */
  predicate Runs(s: State, c: nat) {
    && c < |s.cores| && s.cores[c].current.Some? && s.cores[c].current.value in s.threads
    && s.threads[s.cores[c].current.value].pending.None?
  }

  function Current(s: State, c: nat): nat
    requires c < |s.cores| && s.cores[c].current.Some?
  {
    s.cores[c].current.value
  }

  /** The handle table of the process that core `c` runs. */
  function Handles(s: State, c: nat): map<nat, nat>
    requires Runs(s, c) && s.threads[Current(s, c)].process < |s.processes|
  {
    s.processes[s.threads[Current(s, c)].process].handles
  }

  /** A time that no thread has been stamped with yet: the clock advances between readings. */
  predicate Later(s: State, now: nat) {
    now >= s.clock
  }

  /** The thread takes the first message; a handle goes to its process, under a new token. */
  function Received(s: State, t: nat, b: nat, token: nat): State
    requires t in s.threads && s.threads[t].process < |s.processes|
    requires b < |s.boxes| && |s.received| == |s.boxes| && s.boxes[b].queue != []
  {
    var message, s1 := s.boxes[b].queue[0], Unqueued(s, b);
    if message.Carry? then Registered(s1, s.threads[t].process, token, message.handle) else s1
  }

  /** A new thread of process `p`, made ready. */
  function Spawned(s: State, p: nat, t: nat, now: nat): State
    requires |s.cores| > 0
  {
    Place(s.(threads := s.threads[t := Thread(p, now, None)], clock := now + 1, stale := s.stale - {t}), t)
  }

  function Started(s: State, p: nat): State
    requires p < |s.processes|
  {
    s.(processes := s.processes[p := s.processes[p].(started := true)])
  }

  function NewBox(s: State): State {
    s.(boxes := s.boxes + [Box([], [])], sent := s.sent + [[]], received := s.received + [[]])
  }

  function NewHandle(s: State, p: nat, token: nat, handle: nat, grant: Grant): State
    requires p < |s.processes|
  {
    Registered(s.(grants := s.grants[handle := grant]), p, token, handle)
  }

  /** What reading must find: a next thread if it blocks, an unused token if it gets a handle. */
  ghost predicate CanRead(s: State, c: nat, b: nat, now: nat, next: nat, token: nat)
    requires c < |s.cores| && s.cores[c].current.Some? && Current(s, c) in s.threads && b < |s.boxes|
    requires s.threads[Current(s, c)].process < |s.processes|
  {
    if s.boxes[b].queue == [] then Later(s, now) && Earliest(Park(s, c, now, b), c, next)
    else s.boxes[b].queue[0].Carry? ==> token !in s.processes[s.threads[Current(s, c)].process].handles
  }

  /** The handle that the process that core `c` runs has under a token. */
  function GrantOf(s: State, c: nat, token: nat): Option<Grant>
    requires Runs(s, c) && s.threads[Current(s, c)].process < |s.processes|
  {
    if token in Handles(s, c) && Handles(s, c)[token] in s.grants then Some(s.grants[Handles(s, c)[token]]) else None
  }

  /** What the handle under `via` is to be used for. */
  datatype Use = ReadBox | WriteBox | StartProcess

  /** The checks that come before every handler: there is such a handle, of the right type, and with the
      permission to use it so. */
  function Denial(s: State, c: nat, via: nat, use: Use): Result
    requires Runs(s, c) && s.threads[Current(s, c)].process < |s.processes|
  {
    match GrantOf(s, c, via)
    case None => InvalidToken
    case Some(g) =>
      if (if use.StartProcess? then !g.target.ToProcess? else !g.target.ToBox?) then WrongType
      else if (if use.ReadBox? then !g.read else !g.write) then NotAllowed
      else Ok
  }

  /** The mailbox that the handle under `via` leads to. */
  function BoxVia(s: State, c: nat, via: nat): (b: nat)
    requires Runs(s, c) && s.threads[Current(s, c)].process < |s.processes|
    requires Denial(s, c, via, ReadBox) == Ok || Denial(s, c, via, WriteBox) == Ok
    ensures Granted(s) ==> b < |s.boxes|
  {
    GrantOf(s, c, via).value.target.box
  }

  function ProcessVia(s: State, c: nat, via: nat): (p: nat)
    requires Runs(s, c) && s.threads[Current(s, c)].process < |s.processes| && Denial(s, c, via, StartProcess) == Ok
    ensures Granted(s) ==> p < |s.processes|
  {
    GrantOf(s, c, via).value.target.process
  }

  /** Why the process that core `c` runs may not give a handle away. */
  function Refusal(s: State, c: nat, token: nat): Result
    requires Runs(s, c) && s.threads[Current(s, c)].process < |s.processes|
  {
    match GrantOf(s, c, token)
    case None => InvalidToken
    case Some(g) => if g.transfer then Ok else NotAllowed
  }

  /** The action can happen, does not panic, and wakes no thread whose links break a heap. */
  ghost predicate Enabled(s: State, a: Action)
    requires Sane(s)
  {
    match a
    case Preempt(c, now, next) =>
      && c < |s.cores| && (s.cores[c].current.Some? ==> Runs(s, c)) && Later(s, now)
      && Earliest(if s.cores[c].current.Some? then Yield(s, c, now) else s, c, next)
    case Read(c, via, poll, now, next, token) =>
      && Runs(s, c)
      && (Denial(s, c, via, ReadBox) == Ok ==>
            var b := BoxVia(s, c, via); (s.boxes[b].queue == [] && poll) || CanRead(s, c, b, now, next, token))
    case Resume(c, now, next, token) =>
      && c < |s.cores| && s.cores[c].current.Some? && s.threads[Current(s, c)].pending.Some?
      && CanRead(s, c, s.threads[Current(s, c)].pending.value, now, next, token)
    case WriteData(c, via, _) =>
      Runs(s, c) && (Denial(s, c, via, WriteBox) == Ok ==> Wakes(s, BoxVia(s, c, via)))
    case WriteHandle(c, via, token) =>
      Runs(s, c) && (Denial(s, c, via, WriteBox) == Ok && Refusal(s, c, token) == Ok ==> Wakes(s, BoxVia(s, c, via)))
    case Release(c, token) => Runs(s, c) && (token == 0 || token in Handles(s, c))
    case Start(c, via, bootstrap, token, thread, now) =>
      && Runs(s, c)
      && (Denial(s, c, via, StartProcess) == Ok && Refusal(s, c, bootstrap) == Ok && !s.processes[ProcessVia(s, c, via)].started ==>
            var p := ProcessVia(s, c, via);
            && Later(s, now) && thread !in s.threads
            && (token in s.processes[p].handles ==> p == s.threads[Current(s, c)].process && token == bootstrap))
    case Spawn(c, p, thread, now) =>
      Runs(s, c) && p < |s.processes| && Later(s, now) && thread !in s.threads
    case CreateMailbox(c, readToken, writeToken, reader, writer) =>
      && Runs(s, c) && readToken !in Handles(s, c) && writeToken !in Handles(s, c) && readToken != writeToken
      && reader !in s.grants && writer !in s.grants && reader != writer
    case CreateProcess(c, token, handle) => Runs(s, c) && token !in Handles(s, c) && handle !in s.grants
    case CreateObject(c, token, handle, _) => Runs(s, c) && token !in Handles(s, c) && handle !in s.grants
  }

  /** The current thread, if any, gives way. */
  function Preempted(s: State, c: nat, now: nat, next: nat): State
    requires c < |s.cores| && (s.cores[c].current.Some? ==> Current(s, c) in s.threads)
  {
    Dispatch(if s.cores[c].current.Some? then Yield(s, c, now) else s, c, next)
  }

  /** The current thread waits at mailbox `b`, and another takes its place. */
  function Parked(s: State, c: nat, now: nat, b: nat, pending: Option<nat>, next: nat): State
    requires c < |s.cores| && s.cores[c].current.Some? && Current(s, c) in s.threads && b < |s.boxes|
  {
    Dispatch(Continuing(Park(s, c, now, b), Current(s, c), pending), c, next)
  }

  function Sent(s: State, b: nat, message: Message): State
    requires b < |s.boxes| && |s.sent| == |s.boxes| && |s.cores| > 0
  {
    Woken(Queued(s, b, message), b)
  }

  /** A handle moves to process `p`, which gets its first thread. */
  function Launched(s: State, from: nat, bootstrap: nat, p: nat, token: nat, handle: nat, thread: nat, now: nat): State
    requires from < |s.processes| && p < |s.processes| && |s.cores| > 0
  {
    Spawned(Registered(Unregistered(Started(s, p), from, bootstrap), p, token, handle), p, thread, now)
  }

  /** The grants of the two handles of a mailbox, and of a process. */
  function Reading(b: nat): Grant {
    Grant(ToBox(b), true, false, true)
  }

  function Writing(b: nat): Grant {
    Grant(ToBox(b), false, true, true)
  }

  function Owning(p: nat): Grant {
    Grant(ToProcess(p), true, true, true)
  }

  /** A new mailbox, with a handle to read and one to write. */
  function Opened(s: State, p: nat, readToken: nat, reader: nat, writeToken: nat, writer: nat): State
    requires p < |s.processes|
  {
    NewHandle(NewHandle(NewBox(s), p, readToken, reader, Reading(|s.boxes|)), p, writeToken, writer, Writing(|s.boxes|))
  }

  /** A new process without threads, with a handle to it. */
  function Founded(s: State, p: nat, token: nat, handle: nat): State
    requires p < |s.processes|
  {
    NewHandle(s.(processes := s.processes + [Process(map[], false)]), p, token, handle, Owning(|s.processes|))
  }

  /** The state after an action, and what the caller gets. */
  ghost function After(s: State, a: Action): (State, Result)
    requires Sane(s) && Enabled(s, a)
  {
    match a
    case Preempt(c, now, next) => (Preempted(s, c, now, next), Ok)
    case Read(c, via, poll, now, next, token) =>
      var denial := Denial(s, c, via, ReadBox);
      if denial != Ok then (s, denial)
      else
        var b := BoxVia(s, c, via);
        if s.boxes[b].queue != [] then (Received(s, Current(s, c), b, token), Ok)
        else if poll then (s, NotReady)
        else (Parked(s, c, now, b, Some(b), next), Blocked)
    case Resume(c, now, next, token) =>
      var t := Current(s, c);
      var b := s.threads[t].pending.value;
      if s.boxes[b].queue != [] then (Received(Continuing(s, t, None), t, b, token), Ok)
      else (Parked(s, c, now, b, None, next), Blocked)
    case WriteData(c, via, value) =>
      var denial := Denial(s, c, via, WriteBox);
      if denial != Ok then (s, denial) else (Sent(s, BoxVia(s, c, via), Data(value)), Ok)
    case WriteHandle(c, via, token) =>
      var denial, refusal := Denial(s, c, via, WriteBox), Refusal(s, c, token);
      if denial != Ok then (s, denial)
      else if refusal != Ok then (s, refusal)
      else (Sent(Unregistered(s, s.threads[Current(s, c)].process, token), BoxVia(s, c, via), Carry(Handles(s, c)[token])), Ok)
    case Release(c, token) =>
      if token == 0 then (s, Ok) else (Unregistered(s, s.threads[Current(s, c)].process, token), Ok)
    case Start(c, via, bootstrap, token, thread, now) =>
      var denial, refusal := Denial(s, c, via, StartProcess), Refusal(s, c, bootstrap);
      if denial != Ok then (s, denial)
      else if refusal != Ok then (s, refusal)
      else
        var p := ProcessVia(s, c, via);
        if s.processes[p].started then (s, InvalidArguments)
        else (Launched(s, s.threads[Current(s, c)].process, bootstrap, p, token, Handles(s, c)[bootstrap], thread, now), Ok)
    case Spawn(c, p, thread, now) => (Spawned(Started(s, p), p, thread, now), Ok)
    case CreateMailbox(c, readToken, writeToken, reader, writer) =>
      (Opened(s, s.threads[Current(s, c)].process, readToken, reader, writeToken, writer), Ok)
    case CreateProcess(c, token, handle) => (Founded(s, s.threads[Current(s, c)].process, token, handle), Ok)
    case CreateObject(c, token, handle, transfer) =>
      (NewHandle(s, s.threads[Current(s, c)].process, token, handle, Grant(ToOther, true, true, transfer)), Ok)
  }

  ghost predicate Step(s: State, a: Action, s': State) {
    Sane(s) && Enabled(s, a) && s' == After(s, a).0
  }

  ghost predicate IsRun(ss: seq<State>, actions: seq<Action>) {
    |ss| == |actions| + 1 && forall i: nat :: i < |actions| ==> Step(ss[i], actions[i], ss[i + 1])
  }
}
