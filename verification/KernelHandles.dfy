/** Every handle is in at most one place. */
module KernelHandles {
  import opened Basics
  import opened Kernel
  import opened KernelPlaces

  datatype Spot = InTable(process: nat, token: nat) | InBox(box: nat)

  ghost predicate Has(s: State, h: nat, x: Spot) {
    match x
    case InTable(p, k) => p < |s.processes| && k in s.processes[p].handles && s.processes[p].handles[k] == h
    case InBox(b) => b < |s.boxes| && Carry(h) in s.boxes[b].queue
  }

  /** No handle is in two messages of the queue. */
  predicate OnceEach(queue: seq<Message>) {
    forall i, j :: 0 <= i < j < |queue| && queue[i].Carry? ==> queue[i] != queue[j]
  }

  /** `spots` tells where each handle is: under one token of one process, or in one queued message. */
  ghost predicate Held(s: State, spots: map<nat, Spot>) {
    && (forall h, x {:trigger Has(s, h, x)} :: Has(s, h, x) <==> h in spots && spots[h] == x)
    && (forall h :: h in spots ==> h in s.grants)
    && (forall b: nat {:trigger s.boxes[b]} :: b < |s.boxes| ==> OnceEach(s.boxes[b].queue))
  }

  /** What a step may do to handles: one is lost only when its process releases its token, and one
      leaves its token otherwise only if it may be transferred. */
  ghost predicate Moved(s: State, a: Action, spots: map<nat, Spot>, spots': map<nat, Spot>) {
    && (forall h :: h in spots && h !in spots' ==>
          && a.Release? && a.core < |s.cores| && s.cores[a.core].current.Some? && Current(s, a.core) in s.threads
          && spots[h] == InTable(s.threads[Current(s, a.core)].process, a.token))
    && (forall h :: h in spots && h in spots' && spots'[h] != spots[h] && spots[h].InTable? ==>
          h in s.grants && s.grants[h].transfer)
  }

  // ---------------------------------------------------------------------------------------
  // The moves

  lemma UnregisteredHeld(s: State, spots: map<nat, Spot>, p: nat, token: nat)
    requires Held(s, spots) && p < |s.processes| && token in s.processes[p].handles
    ensures s.processes[p].handles[token] in spots && spots[s.processes[p].handles[token]] == InTable(p, token)
    ensures Held(Unregistered(s, p, token), spots - {s.processes[p].handles[token]})
  {
    var handle, s' := s.processes[p].handles[token], Unregistered(s, p, token);
    assert Has(s, handle, InTable(p, token));
    forall h, x {:trigger Has(s', h, x)} ensures Has(s', h, x) <==> h in spots - {handle} && (spots - {handle})[h] == x {
      assert Has(s, h, x) <==> h in spots && spots[h] == x;
    }
  }

  lemma RegisteredHeld(s: State, spots: map<nat, Spot>, p: nat, token: nat, handle: nat)
    requires Held(s, spots) && p < |s.processes| && token !in s.processes[p].handles && handle !in spots && handle in s.grants
    ensures Held(Registered(s, p, token, handle), spots[handle := InTable(p, token)])
  {
    var s', spots' := Registered(s, p, token, handle), spots[handle := InTable(p, token)];
    forall h, x {:trigger Has(s', h, x)} ensures Has(s', h, x) <==> h in spots' && spots'[h] == x {
      assert Has(s, h, x) <==> h in spots && spots[h] == x;
    }
  }

  lemma QueuedHeld(s: State, spots: map<nat, Spot>, b: nat, message: Message)
    requires Held(s, spots) && b < |s.boxes| && |s.sent| == |s.boxes|
    requires message.Carry? ==> message.handle !in spots && message.handle in s.grants
    ensures Held(Queued(s, b, message), if message.Carry? then spots[message.handle := InBox(b)] else spots)
  {
    var s', spots' := Queued(s, b, message), if message.Carry? then spots[message.handle := InBox(b)] else spots;
    var q := s.boxes[b].queue;
    forall h, x {:trigger Has(s', h, x)} ensures Has(s', h, x) <==> h in spots' && spots'[h] == x {
      assert Has(s, h, x) <==> h in spots && spots[h] == x;
    }
    if message.Carry? {
      assert !Has(s, message.handle, InBox(b));
      assert message !in q;
    }
    forall i, j | 0 <= i < j < |q| + 1 && (q + [message])[i].Carry? ensures (q + [message])[i] != (q + [message])[j] {
      assert OnceEach(q);
    }
  }

  lemma UnqueuedHeld(s: State, spots: map<nat, Spot>, b: nat)
    requires Held(s, spots) && b < |s.boxes| && |s.received| == |s.boxes| && s.boxes[b].queue != []
    ensures var m := s.boxes[b].queue[0];
            && (m.Carry? ==> m.handle in spots && spots[m.handle] == InBox(b))
            && Held(Unqueued(s, b), if m.Carry? then spots - {m.handle} else spots)
  {
    var q, s' := s.boxes[b].queue, Unqueued(s, b);
    var m := q[0];
    var spots' := if m.Carry? then spots - {m.handle} else spots;
    assert OnceEach(q);
    if m.Carry? {
      assert Has(s, m.handle, InBox(b));
    }
    forall h, x {:trigger Has(s', h, x)} ensures Has(s', h, x) <==> h in spots' && spots'[h] == x {
      assert Has(s, h, x) <==> h in spots && spots[h] == x;
      assert Carry(h) in q <==> Carry(h) == m || Carry(h) in q[1..];
    }
  }

  /** Other moves leave handles where they are. */
  ghost predicate SameHandles(s: State, s': State) {
    && |s'.processes| >= |s.processes| && |s'.boxes| >= |s.boxes|
    && (forall p: nat {:trigger s'.processes[p]} :: p < |s.processes| ==> s'.processes[p].handles == s.processes[p].handles)
    && (forall p: nat {:trigger s'.processes[p]} :: |s.processes| <= p < |s'.processes| ==> s'.processes[p].handles == map[])
    && (forall b: nat {:trigger s'.boxes[b]} :: b < |s.boxes| ==> s'.boxes[b].queue == s.boxes[b].queue)
    && (forall b: nat {:trigger s'.boxes[b]} :: |s.boxes| <= b < |s'.boxes| ==> s'.boxes[b].queue == [])
    && (forall h :: h in s.grants ==> h in s'.grants)
  }

  lemma SameHeld(s: State, s': State, spots: map<nat, Spot>)
    requires Held(s, spots) && SameHandles(s, s')
    ensures Held(s', spots)
  {
    forall h, x {:trigger Has(s', h, x)} ensures Has(s', h, x) <==> h in spots && spots[h] == x {
      assert Has(s', h, x) <==> Has(s, h, x);
    }
  }

  // ---------------------------------------------------------------------------------------
  // Calls

  lemma MovesSame(s: State, c: nat, now: nat, next: nat, b: nat, pending: Option<nat>)
    requires c < |s.cores| && (s.cores[c].current.Some? ==> Current(s, c) in s.threads)
    ensures SameHandles(s, Preempted(s, c, now, next))
    ensures s.cores[c].current.Some? && b < |s.boxes| ==> SameHandles(s, Parked(s, c, now, b, pending, next))
  {
  }

  lemma ReceivedHeld(s: State, spots: map<nat, Spot>, t: nat, b: nat, token: nat) returns (spots': map<nat, Spot>)
    requires Held(s, spots) && t in s.threads && s.threads[t].process < |s.processes|
    requires b < |s.boxes| && |s.received| == |s.boxes| && s.boxes[b].queue != []
    requires s.boxes[b].queue[0].Carry? ==> token !in s.processes[s.threads[t].process].handles
    ensures Held(Received(s, t, b, token), spots')
    ensures forall h :: h in spots ==> h in spots' && (spots'[h] == spots[h] || spots[h] == InBox(b))
  {
    hide Held;
    var m, s1 := s.boxes[b].queue[0], Unqueued(s, b);
    UnqueuedHeld(s, spots, b);
    spots' := spots;
    if m.Carry? {
      HeldKnown(s, spots, m.handle);
      RegisteredHeld(s1, spots - {m.handle}, s.threads[t].process, token, m.handle);
      spots' := (spots - {m.handle})[m.handle := InTable(s.threads[t].process, token)];
    }
  }

  lemma HeldKnown(s: State, spots: map<nat, Spot>, h: nat)
    requires Held(s, spots) && h in spots
    ensures h in s.grants
  {
  }

  lemma SentHeld(s: State, spots: map<nat, Spot>, b: nat, message: Message)
    requires Held(s, spots) && b < |s.boxes| && |s.sent| == |s.boxes| && |s.cores| > 0
    requires message.Carry? ==> message.handle !in spots && message.handle in s.grants
    ensures Held(Sent(s, b, message), if message.Carry? then spots[message.handle := InBox(b)] else spots)
  {
    hide Held;
    QueuedHeld(s, spots, b, message);
    WokenSame(Queued(s, b, message), b);
    SameHeld(Queued(s, b, message), Sent(s, b, message), if message.Carry? then spots[message.handle := InBox(b)] else spots);
  }

  lemma WokenSame(s: State, b: nat)
    requires b < |s.boxes| && |s.cores| > 0
    ensures SameHandles(s, Woken(s, b))
  {
    hide Lightest;
  }

  /** A handle goes from the table of the current process to a message. */
  lemma TransferredHeld(s: State, spots: map<nat, Spot>, p: nat, token: nat, b: nat) returns (spots': map<nat, Spot>)
    requires Held(s, spots) && p < |s.processes| && token in s.processes[p].handles
    requires b < |s.boxes| && |s.sent| == |s.boxes| && |s.cores| > 0
    ensures var h := s.processes[p].handles[token];
            && h in spots && spots[h] == InTable(p, token) && spots' == spots[h := InBox(b)]
            && Held(Sent(Unregistered(s, p, token), b, Carry(h)), spots')
  {
    hide Held, Sent;
    var h := s.processes[p].handles[token];
    UnregisteredHeld(s, spots, p, token);
    HeldKnown(s, spots, h);
    SentHeld(Unregistered(s, p, token), spots - {h}, b, Carry(h));
    spots' := spots[h := InBox(b)];
    assert (spots - {h})[h := InBox(b)] == spots';
  }

  /** A handle goes from the table of the current process to that of a new one. */
  lemma LaunchedHeld(s: State, spots: map<nat, Spot>, from: nat, bootstrap: nat, p: nat, token: nat, thread: nat, now: nat)
    returns (spots': map<nat, Spot>)
    requires Held(s, spots) && from < |s.processes| && bootstrap in s.processes[from].handles
    requires p < |s.processes| && (token in s.processes[p].handles ==> p == from && token == bootstrap) && |s.cores| > 0
    ensures var h := s.processes[from].handles[bootstrap];
            && h in spots && spots' == spots[h := InTable(p, token)]
            && Held(Launched(s, from, bootstrap, p, token, h, thread, now), spots')
  {
    hide Held, Spawned;
    var h, s1 := s.processes[from].handles[bootstrap], Started(s, p);
    SameHeld(s, s1, spots);
    UnregisteredHeld(s1, spots, from, bootstrap);
    HeldKnown(s, spots, h);
    var s2 := Unregistered(s1, from, bootstrap);
    RegisteredHeld(s2, spots - {h}, p, token, h);
    spots' := spots[h := InTable(p, token)];
    assert (spots - {h})[h := InTable(p, token)] == spots';
    SpawnedSame(Registered(s2, p, token, h), p, thread, now);
    SameHeld(Registered(s2, p, token, h), Spawned(Registered(s2, p, token, h), p, thread, now), spots');
  }

  lemma SpawnedSame(s: State, p: nat, t: nat, now: nat)
    requires |s.cores| > 0
    ensures SameHandles(s, Spawned(s, p, t, now))
  {
    hide Lightest;
  }

  lemma NewHandleHeld(s: State, spots: map<nat, Spot>, p: nat, token: nat, handle: nat, grant: Grant)
    requires Held(s, spots) && p < |s.processes| && token !in s.processes[p].handles && handle !in s.grants
    ensures handle !in spots && Held(NewHandle(s, p, token, handle, grant), spots[handle := InTable(p, token)])
  {
    var s1 := s.(grants := s.grants[handle := grant]);
    SameHeld(s, s1, spots);
    RegisteredHeld(s1, spots, p, token, handle);
  }

  lemma OpenedHeld(s: State, spots: map<nat, Spot>, p: nat, readToken: nat, reader: nat, writeToken: nat, writer: nat)
    requires Held(s, spots) && p < |s.processes| && reader !in s.grants && writer !in s.grants && reader != writer
    requires readToken !in s.processes[p].handles && writeToken !in s.processes[p].handles && readToken != writeToken
    ensures reader !in spots && writer !in spots
    ensures Held(Opened(s, p, readToken, reader, writeToken, writer),
                 spots[reader := InTable(p, readToken)][writer := InTable(p, writeToken)])
  {
    hide Held, SameHandles;
    var s1, b := NewBox(s), |s.boxes|;
    NewSame(s);
    SameHeld(s, s1, spots);
    NewHandleHeld(s1, spots, p, readToken, reader, Reading(b));
    NewHandleHeld(s1, spots, p, writeToken, writer, Writing(b));
    NewHandleHeld(NewHandle(s1, p, readToken, reader, Reading(b)), spots[reader := InTable(p, readToken)], p, writeToken, writer, Writing(b));
  }

  lemma CreatedHeld(s: State, a: Action, s': State, spots: map<nat, Spot>) returns (spots': map<nat, Spot>)
    requires Step(s, a, s') && Held(s, spots) && (a.CreateMailbox? || a.CreateProcess? || a.CreateObject?)
    ensures Held(s', spots') && forall h :: h in spots ==> h in spots' && spots'[h] == spots[h]
  {
    hide Held, SameHandles, Earliest, Opened, Denial, Refusal, Granted, NewHandle;
    var p := s.threads[Current(s, a.core)].process;
    match a
    case CreateMailbox(c, readToken, writeToken, reader, writer) =>
      OpenedHeld(s, spots, p, readToken, reader, writeToken, writer);
      spots' := spots[reader := InTable(p, readToken)][writer := InTable(p, writeToken)];
    case CreateProcess(c, token, handle) =>
      var s1 := s.(processes := s.processes + [Process(map[], false)]);
      NewSame(s);
      SameHeld(s, s1, spots);
      NewHandleHeld(s1, spots, p, token, handle, Owning(|s.processes|));
      spots' := spots[handle := InTable(p, token)];
    case CreateObject(c, token, handle, transfer) =>
      NewHandleHeld(s, spots, p, token, handle, Grant(ToOther, true, true, transfer));
      spots' := spots[handle := InTable(p, token)];
  }

  lemma NewSame(s: State)
    ensures SameHandles(s, NewBox(s)) && SameHandles(s, s.(processes := s.processes + [Process(map[], false)]))
  {
  }

  lemma SwitchHeld(s: State, a: Action, s': State, spots: map<nat, Spot>)
    requires Step(s, a, s') && Held(s, spots) && (a.Preempt? || After(s, a).1 == Blocked)
    ensures Held(s', spots)
  {
    hide Held, SameHandles, Preempted, Parked, Earliest, Granted;
    if a.Preempt? {
      MovesSame(s, a.core, a.now, a.next, 0, None);
    } else if a.Read? {
      MovesSame(s, a.core, a.now, a.next, BoxVia(s, a.core, a.via), Some(BoxVia(s, a.core, a.via)));
    } else {
      MovesSame(s, a.core, a.now, a.next, s.threads[Current(s, a.core)].pending.value, None);
    }
    SameHeld(s, s', spots);
  }

  lemma ReadHeld(s: State, a: Action, s': State, spots: map<nat, Spot>) returns (spots': map<nat, Spot>)
    requires Step(s, a, s') && Held(s, spots) && (a.Read? || a.Resume?) && After(s, a).1 == Ok
    ensures Held(s', spots') && Moved(s, a, spots, spots')
  {
    hide Held, SameHandles, Parked, Received, Earliest, Denial, Granted;
    var t := Current(s, a.core);
    if a.Read? {
      spots' := ReceivedHeld(s, spots, t, BoxVia(s, a.core, a.via), a.token);
    } else {
      ContinuingHandles(s, t);
      SameHeld(s, Continuing(s, t, None), spots);
      spots' := ReceivedHeld(Continuing(s, t, None), spots, t, s.threads[t].pending.value, a.token);
    }
  }

  lemma WriteHeld(s: State, a: Action, s': State, spots: map<nat, Spot>) returns (spots': map<nat, Spot>)
    requires Step(s, a, s') && Held(s, spots) && (a.WriteData? || a.WriteHandle?) && After(s, a).1 == Ok
    ensures Held(s', spots') && Moved(s, a, spots, spots')
  {
    hide Held, Sent, Earliest, Denial, Refusal, Granted, Wakes;
    if a.WriteData? {
      SentHeld(s, spots, BoxVia(s, a.core, a.via), Data(a.value));
      spots' := spots;
    } else {
      MayGive(s, a.core, a.token);
      spots' := TransferredHeld(s, spots, s.threads[Current(s, a.core)].process, a.token, BoxVia(s, a.core, a.via));
    }
  }

  lemma ProcessHeld(s: State, a: Action, s': State, spots: map<nat, Spot>) returns (spots': map<nat, Spot>)
    requires Step(s, a, s') && Held(s, spots) && (a.Release? || a.Start?) && After(s, a).1 == Ok
    ensures Held(s', spots') && Moved(s, a, spots, spots')
  {
    hide Held, Launched, Earliest, Denial, Refusal, Granted;
    var p := s.threads[Current(s, a.core)].process;
    if a.Start? {
      MayGive(s, a.core, a.bootstrap);
      spots' := LaunchedHeld(s, spots, p, a.bootstrap, ProcessVia(s, a.core, a.via), a.token, a.thread, a.now);
    } else if a.token != 0 {
      UnregisteredHeld(s, spots, p, a.token);
      spots' := spots - {s.processes[p].handles[a.token]};
    } else {
      spots' := spots;
    }
  }

  lemma SpawnHeld(s: State, a: Action, s': State, spots: map<nat, Spot>)
    requires Step(s, a, s') && Held(s, spots) && a.Spawn?
    ensures Held(s', spots)
  {
    hide Held, Spawned, Granted;
    SameHeld(s, Started(s, a.process), spots);
    SpawnedSame(Started(s, a.process), a.process, a.thread, a.now);
    SameHeld(Started(s, a.process), s', spots);
  }

  /** Every step keeps each handle in one place, and moves or loses one only as it may. */
  lemma StepHeld(s: State, a: Action, s': State, spots: map<nat, Spot>) returns (spots': map<nat, Spot>)
    requires Step(s, a, s') && Held(s, spots)
    ensures Held(s', spots') && Moved(s, a, spots, spots')
  {
    hide Held, After, Enabled, Sane, Moved;
    StillMoved(s, a, spots);
    var r := After(s, a).1;
    Outcomes(s, a);
    if a.Preempt? || r == Blocked {
      SwitchHeld(s, a, s', spots);
      spots' := spots;
    } else if r != Ok {
      RefusedUnchanged(s, a);
      spots' := spots;
    } else {
      match a
      case Preempt(_, _, _) =>
      case Read(_, _, _, _, _, _) => spots' := ReadHeld(s, a, s', spots);
      case Resume(_, _, _, _) => spots' := ReadHeld(s, a, s', spots);
      case WriteData(_, _, _) => spots' := WriteHeld(s, a, s', spots);
      case WriteHandle(_, _, _) => spots' := WriteHeld(s, a, s', spots);
      case Release(_, _) => spots' := ProcessHeld(s, a, s', spots);
      case Start(_, _, _, _, _, _) => spots' := ProcessHeld(s, a, s', spots);
      case Spawn(_, _, _, _) =>
        SpawnHeld(s, a, s', spots);
        spots' := spots;
      case _ =>
        spots' := CreatedHeld(s, a, s', spots);
        AddedMoved(s, a, spots, spots');
    }
  }

  lemma AddedMoved(s: State, a: Action, spots: map<nat, Spot>, spots': map<nat, Spot>)
    requires forall h :: h in spots ==> h in spots' && spots'[h] == spots[h]
    ensures Moved(s, a, spots, spots')
  {
  }

  lemma StillMoved(s: State, a: Action, spots: map<nat, Spot>)
    ensures Moved(s, a, spots, spots)
  {
  }

  lemma Outcomes(s: State, a: Action)
    requires Sane(s) && Enabled(s, a)
    ensures After(s, a).1 in {Ok, Blocked, NotReady, InvalidToken, WrongType, NotAllowed, InvalidArguments}
  {
  }

  lemma ContinuingHandles(s: State, t: nat)
    requires t in s.threads
    ensures SameHandles(s, Continuing(s, t, None))
  {
  }

  /** In every state of every run, no handle is in two places. */
  lemma {:induction false} AlwaysHeld(ss: seq<State>, actions: seq<Action>, i: nat, spots: map<nat, Spot>)
    returns (spots': map<nat, Spot>)
    requires IsRun(ss, actions) && i < |ss| && Held(ss[0], spots)
    ensures Held(ss[i], spots')
  {
    hide Step, Held, Moved;
    if i == 0 {
      spots' := spots;
    } else {
      var before := AlwaysHeld(ss, actions, i - 1, spots);
      spots' := StepHeld(ss[i - 1], actions[i - 1], ss[i], before);
    }
  }

  /** A handle that may not be transferred stays under its token until its process releases it. */
  lemma {:induction false} StaysUntilReleased(ss: seq<State>, actions: seq<Action>, i: nat, spots: map<nat, Spot>, h: nat)
    requires IsRun(ss, actions) && i < |ss| && Held(ss[0], spots) && h in spots && spots[h].InTable?
    requires h in ss[0].grants && !ss[0].grants[h].transfer
    requires forall k: nat :: k < i ==> !ReleasesAt(ss[k], actions[k], spots[h])
    ensures Has(ss[i], h, spots[h]) && h in ss[i].grants && !ss[i].grants[h].transfer
  {
    hide Held, Moved, Has, After, Enabled;
    if i == 0 {
      HasSpot(ss[0], spots, h);
    } else {
      StaysUntilReleased(ss, actions, i - 1, spots, h);
      var s, a, s' := ss[i - 1], actions[i - 1], ss[i];
      var before := AlwaysHeld(ss, actions, i - 1, spots);
      var after := StepHeld(s, a, s', before);
      StepStays(s, a, s', before, after, h, spots[h]);
    }
  }

  /** The action is the release of this token by this process. */
  ghost predicate ReleasesAt(s: State, a: Action, x: Spot) {
    && a.Release? && a.core < |s.cores| && s.cores[a.core].current.Some? && Current(s, a.core) in s.threads
    && x == InTable(s.threads[Current(s, a.core)].process, a.token)
  }

  lemma HasSpot(s: State, spots: map<nat, Spot>, h: nat)
    requires Held(s, spots) && h in spots
    ensures Has(s, h, spots[h])
  {
  }

  lemma StepStays(s: State, a: Action, s': State, spots: map<nat, Spot>, spots': map<nat, Spot>, h: nat, x: Spot)
    requires Step(s, a, s') && Held(s, spots) && Held(s', spots') && Moved(s, a, spots, spots')
    requires Has(s, h, x) && x.InTable? && h in s.grants && !s.grants[h].transfer && !ReleasesAt(s, a, x)
    ensures Has(s', h, x) && h in s'.grants && !s'.grants[h].transfer
  {
    hide Enabled, After;
    PermissionsStay(s, a, s', h);
  }

  lemma PermissionsStay(s: State, a: Action, s': State, h: nat)
    requires Step(s, a, s') && h in s.grants
    ensures h in s'.grants && s'.grants[h] == s.grants[h]
  {
    hide Lightest, Earliest, Preempted, Parked, Sent, Received, Launched, Spawned, Denial, Refusal, Granted, Wakes, Fits;
    if s' != s {
      var c := a.core;
      match a
      case Preempt(_, now, next) => MovesKeepPermissions(s, c, now, next, 0, None);
      case Read(_, via, _, now, next, token) =>
        var b := BoxVia(s, c, via);
        MovesKeepPermissions(s, c, now, next, b, Some(b));
        if s.boxes[b].queue != [] {
          MailKeepsPermissions(s, Current(s, c), b, token);
        }
      case Resume(_, now, next, token) =>
        var b := s.threads[Current(s, c)].pending.value;
        MovesKeepPermissions(s, c, now, next, b, None);
        if s.boxes[b].queue != [] {
          MailKeepsPermissions(Continuing(s, Current(s, c), None), Current(s, c), b, token);
        }
      case WriteData(_, via, value) => SendKeepsPermissions(s, BoxVia(s, c, via), Data(value));
      case WriteHandle(_, via, token) =>
        MayGive(s, c, token);
        SendKeepsPermissions(Unregistered(s, s.threads[Current(s, c)].process, token), BoxVia(s, c, via), Carry(Handles(s, c)[token]));
      case Start(_, via, bootstrap, token, thread, now) =>
        MayGive(s, c, bootstrap);
        LaunchKeepsPermissions(s, s.threads[Current(s, c)].process, bootstrap, ProcessVia(s, c, via), token, Handles(s, c)[bootstrap], thread, now);
      case Spawn(_, p, thread, now) => LaunchKeepsPermissions(s, p, 0, p, 0, 0, thread, now);
      case _ =>
    }
  }

  lemma MovesKeepPermissions(s: State, c: nat, now: nat, next: nat, b: nat, pending: Option<nat>)
    requires c < |s.cores| && (s.cores[c].current.Some? ==> Current(s, c) in s.threads)
    ensures Preempted(s, c, now, next).grants == s.grants
    ensures s.cores[c].current.Some? && b < |s.boxes| ==> Parked(s, c, now, b, pending, next).grants == s.grants
  {
  }

  lemma MailKeepsPermissions(s: State, t: nat, b: nat, token: nat)
    requires t in s.threads && s.threads[t].process < |s.processes|
    requires b < |s.boxes| && |s.received| == |s.boxes| && s.boxes[b].queue != []
    ensures Received(s, t, b, token).grants == s.grants
  {
  }

  lemma SendKeepsPermissions(s: State, b: nat, message: Message)
    requires b < |s.boxes| && |s.sent| == |s.boxes| && |s.cores| > 0
    ensures Sent(s, b, message).grants == s.grants
  {
    hide Lightest;
  }

  lemma LaunchKeepsPermissions(s: State, from: nat, bootstrap: nat, p: nat, token: nat, handle: nat, thread: nat, now: nat)
    requires from < |s.processes| && p < |s.processes| && |s.cores| > 0
    ensures Launched(s, from, bootstrap, p, token, handle, thread, now).grants == s.grants
    ensures Spawned(Started(s, p), p, thread, now).grants == s.grants
  {
    hide Lightest;
  }

  /** A call that is refused changes nothing. */
  lemma RefusedUnchanged(s: State, a: Action)
    requires Sane(s) && Enabled(s, a) && After(s, a).1 in {NotReady, InvalidToken, WrongType, NotAllowed, InvalidArguments}
    ensures After(s, a).0 == s
  {
    hide Lightest, Earliest;
  }
}
