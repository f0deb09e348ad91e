/** Every thread is in exactly one place. */
module KernelPlaces {
  import opened Basics
  import opened Kernel

  datatype Where = Running(core: nat) | Ready(core: nat) | Waiting(box: nat)

  ghost predicate Is(s: State, t: nat, w: Where) {
    match w
    case Running(c) => c < |s.cores| && s.cores[c].current == Some(t)
    case Ready(c) => c < |s.cores| && t in s.cores[c].ready
    case Waiting(b) => b < |s.boxes| && t in s.boxes[b].waiting
  }

  predicate NoneTwice(w: seq<nat>) {
    forall i, j :: 0 <= i < j < |w| ==> w[i] != w[j]
  }

  /** `place` tells where each thread is, and it is nowhere else. */
  ghost predicate Placed(s: State, place: map<nat, Where>) {
    && place.Keys == s.threads.Keys
    && (forall t, w {:trigger Is(s, t, w)} :: Is(s, t, w) <==> t in place && place[t] == w)
    && (forall b: nat {:trigger s.boxes[b]} :: b < |s.boxes| ==> NoneTwice(s.boxes[b].waiting))
  }

  /** The rest of what makes a state sane. */
  ghost predicate Formed(s: State) {
    && |s.cores| > 0 && |s.sent| == |s.boxes| == |s.received|
    && (forall t :: t in s.threads ==> s.threads[t].process < |s.processes|)
    && (forall t :: t in s.threads && s.threads[t].pending.Some? ==> s.threads[t].pending.value < |s.boxes|)
    && Granted(s)
  }

  lemma SaneIf(s: State, place: map<nat, Where>)
    requires Placed(s, place) && Formed(s)
    ensures Sane(s)
  {
    forall c: nat | c < |s.cores| && s.cores[c].current.Some? ensures s.cores[c].current.value in s.threads {
      assert Is(s, s.cores[c].current.value, Running(c));
    }
    forall c: nat, t | c < |s.cores| && t in s.cores[c].ready ensures t in s.threads {
      assert Is(s, t, Ready(c));
    }
    forall b: nat, t | b < |s.boxes| && t in s.boxes[b].waiting ensures t in s.threads {
      assert Is(s, t, Waiting(b));
    }
  }

  // ---------------------------------------------------------------------------------------
  // The moves

  lemma YieldPlaced(s: State, place: map<nat, Where>, c: nat, now: nat)
    requires Placed(s, place) && c < |s.cores| && s.cores[c].current.Some? && Current(s, c) in s.threads
    ensures Placed(Yield(s, c, now), place[Current(s, c) := Ready(c)])
  {
    var t, s' := Current(s, c), Yield(s, c, now);
    assert Is(s, t, Running(c));
    forall x, w {:trigger Is(s', x, w)}
      ensures Is(s', x, w) <==> x in place[t := Ready(c)] && place[t := Ready(c)][x] == w
    {
      assert Is(s, x, w) <==> x in place && place[x] == w;
    }
  }

  lemma ParkPlaced(s: State, place: map<nat, Where>, c: nat, now: nat, b: nat)
    requires Placed(s, place) && c < |s.cores| && s.cores[c].current.Some? && Current(s, c) in s.threads && b < |s.boxes|
    ensures Placed(Park(s, c, now, b), place[Current(s, c) := Waiting(b)])
  {
    var t, s' := Current(s, c), Park(s, c, now, b);
    assert Is(s, t, Running(c));
    assert !Is(s, t, Waiting(b));
    forall x, w {:trigger Is(s', x, w)}
      ensures Is(s', x, w) <==> x in place[t := Waiting(b)] && place[t := Waiting(b)][x] == w
    {
      assert Is(s, x, w) <==> x in place && place[x] == w;
    }
  }

  lemma DispatchPlaced(s: State, place: map<nat, Where>, c: nat, next: nat)
    requires Placed(s, place) && c < |s.cores| && s.cores[c].current.None? && Earliest(s, c, next)
    ensures Placed(Dispatch(s, c, next), if s.cores[c].ready == {} then place else place[next := Running(c)])
  {
    if s.cores[c].ready != {} {
      var s' := Dispatch(s, c, next);
      assert Is(s, next, Ready(c));
      forall x, w {:trigger Is(s', x, w)}
        ensures Is(s', x, w) <==> x in place[next := Running(c)] && place[next := Running(c)][x] == w
      {
        assert Is(s, x, w) <==> x in place && place[x] == w;
      }
    }
  }

  /** A thread that is nowhere yet, or was just taken from where it was. */
  lemma PlacePlaced(s: State, s0: State, place: map<nat, Where>, t: nat)
    requires |s.cores| > 0 && t in s.threads && place.Keys + {t} == s.threads.Keys && s.cores == s0.cores
    requires forall x, w {:trigger Is(s, x, w)} :: Is(s, x, w) <==> x != t && x in place && place[x] == w
    requires forall b: nat {:trigger s.boxes[b]} :: b < |s.boxes| ==> NoneTwice(s.boxes[b].waiting)
    ensures Placed(Place(s, t), place[t := Ready(Lightest(s.cores, |s.cores|))])
  {
    hide Lightest;
    var k, s' := Lightest(s.cores, |s.cores|), Place(s, t);
    forall x, w {:trigger Is(s', x, w)}
      ensures Is(s', x, w) <==> x in place[t := Ready(k)] && place[t := Ready(k)][x] == w
    {
      assert Is(s, x, w) <==> x != t && x in place && place[x] == w;
    }
  }

  lemma WokenPlaced(s: State, place: map<nat, Where>, b: nat)
    requires Placed(s, place) && b < |s.boxes| && |s.cores| > 0
    ensures var w := s.boxes[b].waiting;
            Placed(Woken(s, b), if w == [] then place else place[w[0] := Ready(Lightest(s.cores, |s.cores|))])
  {
    var w := s.boxes[b].waiting;
    if w != [] {
      var t := w[0];
      var s1 := Unwaited(s, b);
      assert Is(s, t, Waiting(b));
      assert NoneTwice(w);
      forall x, v {:trigger Is(s1, x, v)}
        ensures Is(s1, x, v) <==> x != t && x in place && place[x] == v
      {
        assert Is(s, x, v) <==> x in place && place[x] == v;
        assert x in w <==> x == t || x in w[1..];
      }
      PlacePlaced(s1, s, place, t);
    }
  }

  lemma SpawnedPlaced(s: State, place: map<nat, Where>, p: nat, t: nat, now: nat)
    requires Placed(s, place) && |s.cores| > 0 && t !in s.threads
    ensures Placed(Spawned(s, p, t, now), place[t := Ready(Lightest(s.cores, |s.cores|))])
  {
    var s1 := s.(threads := s.threads[t := Thread(p, now, None)], clock := now + 1, stale := s.stale - {t});
    forall x, v {:trigger Is(s1, x, v)}
      ensures Is(s1, x, v) <==> x != t && x in place && place[x] == v
    {
      assert Is(s, x, v) <==> x in place && place[x] == v;
    }
    PlacePlaced(s1, s, place, t);
  }

  /** Other moves take no thread from its place. */
  ghost predicate SamePlaces(s: State, s': State) {
    && s'.cores == s.cores && s'.threads.Keys == s.threads.Keys && |s'.boxes| >= |s.boxes|
    && (forall b: nat {:trigger s'.boxes[b]} :: b < |s.boxes| ==> s'.boxes[b].waiting == s.boxes[b].waiting)
    && (forall b: nat {:trigger s'.boxes[b]} :: |s.boxes| <= b < |s'.boxes| ==> s'.boxes[b].waiting == [])
  }

  lemma SamePlaced(s: State, s': State, place: map<nat, Where>)
    requires Placed(s, place) && SamePlaces(s, s')
    ensures Placed(s', place)
  {
    forall x, v {:trigger Is(s', x, v)}
      ensures Is(s', x, v) <==> x in place && place[x] == v
    {
      assert Is(s', x, v) <==> Is(s, x, v);
    }
  }

  // ---------------------------------------------------------------------------------------
  // Steps and runs

  lemma PreemptedPlaced(s: State, place: map<nat, Where>, c: nat, now: nat, next: nat) returns (place': map<nat, Where>)
    requires Placed(s, place) && c < |s.cores| && (s.cores[c].current.Some? ==> Current(s, c) in s.threads)
    requires Earliest(if s.cores[c].current.Some? then Yield(s, c, now) else s, c, next)
    ensures Placed(Preempted(s, c, now, next), place')
  {
    hide Placed;
    place' := place;
    var s1 := s;
    if s.cores[c].current.Some? {
      YieldPlaced(s, place, c, now);
      s1, place' := Yield(s, c, now), place[Current(s, c) := Ready(c)];
    }
    DispatchPlaced(s1, place', c, next);
    place' := if s1.cores[c].ready == {} then place' else place'[next := Running(c)];
  }

  lemma ParkedPlaced(s: State, place: map<nat, Where>, c: nat, now: nat, b: nat, pending: Option<nat>, next: nat)
    returns (place': map<nat, Where>)
    requires Placed(s, place) && c < |s.cores| && s.cores[c].current.Some? && Current(s, c) in s.threads && b < |s.boxes|
    requires Earliest(Park(s, c, now, b), c, next)
    ensures Placed(Parked(s, c, now, b, pending, next), place')
  {
    hide Placed;
    var t, s1 := Current(s, c), Park(s, c, now, b);
    ParkPlaced(s, place, c, now, b);
    var s2 := Continuing(s1, t, pending);
    SamePlaced(s1, s2, place[t := Waiting(b)]);
    DispatchPlaced(s2, place[t := Waiting(b)], c, next);
    place' := if s2.cores[c].ready == {} then place[t := Waiting(b)] else place[t := Waiting(b)][next := Running(c)];
  }

  lemma SentPlaced(s: State, place: map<nat, Where>, b: nat, message: Message) returns (place': map<nat, Where>)
    requires Placed(s, place) && b < |s.boxes| && |s.sent| == |s.boxes| && |s.cores| > 0
    ensures Placed(Sent(s, b, message), place')
  {
    hide Placed;
    var s1 := Queued(s, b, message);
    SamePlaced(s, s1, place);
    WokenPlaced(s1, place, b);
    var w := s1.boxes[b].waiting;
    place' := if w == [] then place else place[w[0] := Ready(Lightest(s1.cores, |s1.cores|))];
  }

  lemma LaunchedPlaced(s: State, place: map<nat, Where>, from: nat, bootstrap: nat, p: nat, token: nat, handle: nat, thread: nat, now: nat)
    returns (place': map<nat, Where>)
    requires Placed(s, place) && from < |s.processes| && p < |s.processes| && |s.cores| > 0 && thread !in s.threads
    ensures Placed(Launched(s, from, bootstrap, p, token, handle, thread, now), place')
  {
    hide Placed;
    var s1 := Registered(Unregistered(Started(s, p), from, bootstrap), p, token, handle);
    SamePlaced(s, s1, place);
    SpawnedPlaced(s1, place, p, thread, now);
    place' := place[thread := Ready(Lightest(s1.cores, |s1.cores|))];
  }

  lemma ReceivedSame(s: State, t: nat, b: nat, token: nat)
    requires t in s.threads && s.threads[t].process < |s.processes|
    requires b < |s.boxes| && |s.received| == |s.boxes| && s.boxes[b].queue != []
    ensures SamePlaces(s, Received(s, t, b, token))
  {
  }

  lemma QuietSame(s: State, a: Action, s': State)
    requires Step(s, a, s') && (a.Release? || a.CreateMailbox? || a.CreateProcess? || a.CreateObject?)
    ensures SamePlaces(s, s')
  {
  }

  /** Every step moves threads from one place to another. */
  lemma MovePlaced(s: State, a: Action, s': State, place: map<nat, Where>) returns (place': map<nat, Where>)
    requires Step(s, a, s') && Placed(s, place)
    ensures Placed(s', place')
  {
    hide Placed, Preempted, Parked, Sent, Launched, Spawned, Earliest, Received, SamePlaces, Opened, Founded, NewHandle, Unregistered,
         Denial, Refusal, Granted, Wakes, Fits;
    place' := place;
    match a
    case Preempt(c, now, next) => place' := PreemptedPlaced(s, place, c, now, next);
    case Read(c, via, poll, now, next, token) =>
      if Denial(s, c, via, ReadBox) == Ok {
        var b := BoxVia(s, c, via);
        if s.boxes[b].queue != [] {
          ReceivedSame(s, Current(s, c), b, token);
          SamePlaced(s, s', place);
        } else if !poll {
          place' := ParkedPlaced(s, place, c, now, b, Some(b), next);
        }
      }
    case Resume(c, now, next, token) =>
      var t := Current(s, c);
      var b := s.threads[t].pending.value;
      if s.boxes[b].queue != [] {
        var s1 := Continuing(s, t, None);
        ContinuingPlaces(s, t);
        SamePlaced(s, s1, place);
        ReceivedSame(s1, t, b, token);
        SamePlaced(s1, s', place);
      } else {
        place' := ParkedPlaced(s, place, c, now, b, None, next);
      }
    case WriteData(c, via, value) =>
      if Denial(s, c, via, WriteBox) == Ok {
        place' := SentPlaced(s, place, BoxVia(s, c, via), Data(value));
      }
    case WriteHandle(c, via, token) =>
      if Denial(s, c, via, WriteBox) == Ok && Refusal(s, c, token) == Ok {
        MayGive(s, c, token);
        var s1 := Unregistered(s, s.threads[Current(s, c)].process, token);
        UnregisteredPlaces(s, s.threads[Current(s, c)].process, token);
        SamePlaced(s, s1, place);
        place' := SentPlaced(s1, place, BoxVia(s, c, via), Carry(Handles(s, c)[token]));
      }
    case Start(c, via, bootstrap, token, thread, now) =>
      if s' != s {
        MayGive(s, c, bootstrap);
        place' := LaunchedPlaced(s, place, s.threads[Current(s, c)].process, bootstrap, ProcessVia(s, c, via), token,
                                 Handles(s, c)[bootstrap], thread, now);
      }
    case Spawn(c, p, thread, now) =>
      StartedPlaces(s, p);
      SamePlaced(s, Started(s, p), place);
      SpawnedPlaced(Started(s, p), place, p, thread, now);
      place' := place[thread := Ready(Lightest(s.cores, |s.cores|))];
    case _ =>
      QuietSame(s, a, s');
      SamePlaced(s, s', place);
  }

  lemma MayGive(s: State, c: nat, token: nat)
    requires Runs(s, c) && s.threads[Current(s, c)].process < |s.processes| && Refusal(s, c, token) == Ok
    ensures token in Handles(s, c) && Handles(s, c)[token] in s.grants && s.grants[Handles(s, c)[token]].transfer
  {
  }

  lemma StartedPlaces(s: State, p: nat)
    requires p < |s.processes|
    ensures SamePlaces(s, Started(s, p))
  {
  }

  lemma ContinuingPlaces(s: State, t: nat)
    requires t in s.threads
    ensures SamePlaces(s, Continuing(s, t, None))
  {
  }

  lemma UnregisteredPlaces(s: State, p: nat, token: nat)
    requires p < |s.processes|
    ensures var s1 := Unregistered(s, p, token);
            SamePlaces(s, s1) && s1.boxes == s.boxes && s1.sent == s.sent && s1.cores == s.cores
  {
  }

  lemma MovesFormed(s: State, c: nat, now: nat, next: nat, b: nat, pending: Option<nat>)
    requires Formed(s) && c < |s.cores| && (s.cores[c].current.Some? ==> Current(s, c) in s.threads)
    requires pending.Some? ==> pending.value < |s.boxes|
    ensures Formed(Preempted(s, c, now, next))
    ensures s.cores[c].current.Some? && b < |s.boxes| ==> Formed(Parked(s, c, now, b, pending, next))
  {
    hide Granted;
    SameGranted(s, Preempted(s, c, now, next));
    if s.cores[c].current.Some? && b < |s.boxes| {
      SameGranted(s, Parked(s, c, now, b, pending, next));
    }
  }

  lemma SentFormed(s: State, b: nat, message: Message)
    requires Formed(s) && b < |s.boxes| && (message.Carry? ==> message.handle in s.grants)
    ensures Formed(Sent(s, b, message))
  {
    hide Lightest, Granted;
    QueuedGranted(s, b, message);
    var s1 := Queued(s, b, message);
    if s1.boxes[b].waiting != [] {
      SameGranted(s1, Sent(s, b, message));
    }
  }

  lemma QueuedGranted(s: State, b: nat, message: Message)
    requires Granted(s) && b < |s.boxes| == |s.sent| && (message.Carry? ==> message.handle in s.grants)
    ensures Granted(Queued(s, b, message))
  {
  }

  /** The same handles in the same tables and queues. */
  lemma SameGranted(s: State, s': State)
    requires Granted(s) && s'.grants == s.grants && s'.processes == s.processes && |s'.boxes| == |s.boxes|
    requires forall b: nat {:trigger s'.boxes[b]} :: b < |s.boxes| ==> s'.boxes[b].queue == s.boxes[b].queue
    ensures Granted(s')
  {
    forall h | h in s'.grants ensures TargetOk(s', s'.grants[h]) {
      assert TargetOk(s, s.grants[h]);
    }
  }

  lemma ReceivedFormed(s: State, t: nat, b: nat, token: nat)
    requires Formed(s) && b < |s.boxes| && t in s.threads && s.boxes[b].queue != []
    ensures Formed(Received(s, t, b, token))
  {
    var m, s1, s' := s.boxes[b].queue[0], Unqueued(s, b), Received(s, t, b, token);
    assert m in s.boxes[b].queue;
    forall x: nat, h | x < |s'.boxes| && Carry(h) in s'.boxes[x].queue ensures h in s'.grants {
      assert Carry(h) in s.boxes[x].queue;
    }
    forall h | h in s'.grants ensures TargetOk(s', s'.grants[h]) {
      assert TargetOk(s, s.grants[h]);
    }
  }

  lemma ContinuingFormed(s: State, t: nat)
    requires Formed(s) && t in s.threads
    ensures Formed(Continuing(s, t, None))
  {
  }

  lemma UnregisteredFormed(s: State, p: nat, token: nat)
    requires Formed(s) && p < |s.processes|
    ensures Formed(Unregistered(s, p, token))
  {
    forall h | h in s.grants ensures TargetOk(Unregistered(s, p, token), s.grants[h]) {
      assert TargetOk(s, s.grants[h]);
    }
  }

  lemma NewHandleFormed(s: State, p: nat, token: nat, handle: nat, grant: Grant)
    requires Formed(s) && p < |s.processes| && TargetOk(s, grant)
    ensures Formed(NewHandle(s, p, token, handle, grant))
  {
    var s' := NewHandle(s, p, token, handle, grant);
    forall h | h in s'.grants ensures TargetOk(s', s'.grants[h]) {
      assert h != handle ==> TargetOk(s, s.grants[h]);
    }
  }

  lemma NewFormed(s: State)
    requires Formed(s)
    ensures Formed(NewBox(s)) && Formed(s.(processes := s.processes + [Process(map[], false)]))
  {
    var s1, s2 := NewBox(s), s.(processes := s.processes + [Process(map[], false)]);
    forall h | h in s.grants ensures TargetOk(s1, s.grants[h]) && TargetOk(s2, s.grants[h]) {
      assert TargetOk(s, s.grants[h]);
    }
  }

  lemma OpenedFormed(s: State, p: nat, readToken: nat, reader: nat, writeToken: nat, writer: nat)
    requires Formed(s) && p < |s.processes|
    ensures Formed(Opened(s, p, readToken, reader, writeToken, writer))
  {
    hide Formed, NewHandle;
    NewFormed(s);
    NewHandleFormed(NewBox(s), p, readToken, reader, Reading(|s.boxes|));
    NewHandleSame(NewBox(s), p, readToken, reader, Reading(|s.boxes|));
    NewHandleFormed(NewHandle(NewBox(s), p, readToken, reader, Reading(|s.boxes|)), p, writeToken, writer, Writing(|s.boxes|));
  }

  lemma FoundedFormed(s: State, p: nat, token: nat, handle: nat)
    requires Formed(s) && p < |s.processes|
    ensures Formed(Founded(s, p, token, handle))
  {
    hide Formed, NewHandle;
    NewFormed(s);
    NewHandleFormed(s.(processes := s.processes + [Process(map[], false)]), p, token, handle, Owning(|s.processes|));
  }

  lemma SpawnedFormed(s: State, p: nat, thread: nat, now: nat)
    requires Formed(s) && p < |s.processes|
    ensures Formed(Spawned(s, p, thread, now)) && Formed(Started(s, p))
  {
    hide Lightest;
    SameGranted(s, Spawned(s, p, thread, now));
    forall h | h in s.grants ensures TargetOk(Started(s, p), s.grants[h]) {
      assert TargetOk(s, s.grants[h]);
    }
  }

  lemma LaunchedFormed(s: State, from: nat, bootstrap: nat, p: nat, token: nat, handle: nat, thread: nat, now: nat)
    requires Formed(s) && from < |s.processes| && p < |s.processes| && handle in s.grants
    ensures Formed(Launched(s, from, bootstrap, p, token, handle, thread, now))
  {
    hide Formed, Spawned;
    SpawnedFormed(s, p, thread, now);
    var s1 := Unregistered(Started(s, p), from, bootstrap);
    UnregisteredFormed(Started(s, p), from, bootstrap);
    RegisteredFormed(s1, p, token, handle);
    SpawnedFormed(Registered(s1, p, token, handle), p, thread, now);
  }

  lemma RegisteredFormed(s: State, p: nat, token: nat, handle: nat)
    requires Formed(s) && p < |s.processes| && handle in s.grants
    ensures Formed(Registered(s, p, token, handle))
  {
    forall h | h in s.grants ensures TargetOk(Registered(s, p, token, handle), s.grants[h]) {
      assert TargetOk(s, s.grants[h]);
    }
  }

  lemma StepFormed(s: State, a: Action, s': State)
    requires Step(s, a, s')
    ensures Formed(s')
  {
    hide Formed, Preempted, Parked, Sent, Received, Continuing, Launched, Spawned, Earliest, Unregistered, NewHandle, Opened, Founded,
         Granted, Wakes, Fits, Started;
    assert Formed(s) by { SaneFormed(s); }
    if s' != s {
      StepFormedCases(s, a, s');
    }
  }

  /** Steps that change something. */
  lemma StepFormedCases(s: State, a: Action, s': State)
    requires Step(s, a, s') && Formed(s) && s' != s
    ensures Formed(s')
  {
    hide Formed, Preempted, Parked, Sent, Received, Continuing, Launched, Spawned, Earliest, Unregistered, NewHandle, Opened, Founded,
         Granted, Wakes, Fits, Started;
    var c := a.core;
    var p := if s.cores[c].current.Some? then s.threads[Current(s, c)].process else 0;
    match a
    case Preempt(_, now, next) => MovesFormed(s, c, now, next, 0, None);
    case Read(_, via, poll, now, next, token) =>
      var b := BoxVia(s, c, via);
      MovesFormed(s, c, now, next, b, Some(b));
      if s.boxes[b].queue != [] {
        ReceivedFormed(s, Current(s, c), b, token);
      }
    case Resume(_, now, next, token) =>
      var t := Current(s, c);
      var b := s.threads[t].pending.value;
      MovesFormed(s, c, now, next, b, None);
      if s.boxes[b].queue != [] {
        ContinuingFormed(s, t);
        ContinuingSame(s, t);
        ReceivedFormed(Continuing(s, t, None), t, b, token);
      }
    case WriteData(_, via, value) => SentFormed(s, BoxVia(s, c, via), Data(value));
    case WriteHandle(_, via, token) =>
      UnregisteredFormed(s, p, token);
      UnregisteredSame(s, p, token);
      SentFormed(Unregistered(s, p, token), BoxVia(s, c, via), Carry(Handles(s, c)[token]));
    case Release(_, token) => UnregisteredFormed(s, p, token);
    case Start(_, via, bootstrap, token, thread, now) =>
      LaunchedFormed(s, p, bootstrap, ProcessVia(s, c, via), token, Handles(s, c)[bootstrap], thread, now);
    case Spawn(_, q, thread, now) =>
      SpawnedFormed(s, q, thread, now);
      StartedSame(s, q);
      SpawnedFormed(Started(s, q), q, thread, now);
    case CreateMailbox(_, readToken, writeToken, reader, writer) => OpenedFormed(s, p, readToken, reader, writeToken, writer);
    case CreateProcess(_, token, handle) => FoundedFormed(s, p, token, handle);
    case CreateObject(_, token, handle, transfer) => NewHandleFormed(s, p, token, handle, Grant(ToOther, true, true, transfer));
  }

  lemma StartedSame(s: State, p: nat)
    requires p < |s.processes|
    ensures |Started(s, p).processes| == |s.processes| && Started(s, p).cores == s.cores
  {
  }

  lemma SaneFormed(s: State)
    requires Sane(s)
    ensures Formed(s)
  {
  }

  lemma ContinuingSame(s: State, t: nat)
    requires t in s.threads
    ensures Continuing(s, t, None).boxes == s.boxes && t in Continuing(s, t, None).threads
  {
  }

  lemma UnregisteredSame(s: State, p: nat, token: nat)
    requires p < |s.processes|
    ensures Unregistered(s, p, token).boxes == s.boxes && Unregistered(s, p, token).grants == s.grants
  {
  }

  lemma NewHandleSame(s: State, p: nat, token: nat, handle: nat, grant: Grant)
    requires p < |s.processes|
    ensures |NewHandle(s, p, token, handle, grant).processes| == |s.processes| && NewHandle(s, p, token, handle, grant).boxes == s.boxes
  {
  }

  lemma StepPlaced(s: State, a: Action, s': State, place: map<nat, Where>) returns (place': map<nat, Where>)
    requires Step(s, a, s') && Placed(s, place)
    ensures Placed(s', place') && Sane(s')
  {
    hide Placed, After, Enabled;
    place' := MovePlaced(s, a, s', place);
    StepFormed(s, a, s');
    SaneIf(s', place');
  }

  /** In every state of every run, every thread is in exactly one place. */
  lemma {:induction false} AlwaysPlaced(ss: seq<State>, actions: seq<Action>, i: nat, place: map<nat, Where>)
    returns (place': map<nat, Where>)
    requires IsRun(ss, actions) && i < |ss| && Placed(ss[0], place)
    ensures Placed(ss[i], place')
  {
    hide Step, Placed;
    if i == 0 {
      place' := place;
    } else {
      var before := AlwaysPlaced(ss, actions, i - 1, place);
      place' := StepPlaced(ss[i - 1], actions[i - 1], ss[i], before);
    }
  }

  /** A thread that is woken is not the current thread of any core, so the scheduler's check for that
      never fails. */
  lemma NotCurrent(s: State, place: map<nat, Where>, b: nat, c: nat)
    requires Placed(s, place) && b < |s.boxes| && s.boxes[b].waiting != [] && c < |s.cores|
    ensures s.cores[c].current != Some(s.boxes[b].waiting[0])
  {
    assert Is(s, s.boxes[b].waiting[0], Waiting(b));
    assert s.cores[c].current == Some(s.boxes[b].waiting[0]) ==> Is(s, s.boxes[b].waiting[0], Running(c));
  }
}
