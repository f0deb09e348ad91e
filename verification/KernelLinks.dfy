/** Threads carry the links of the heap and the queues they are in. */
module KernelLinks {
  import opened Basics
  import opened Kernel
  import opened KernelPlaces

  /** No thread in a heap has links left over from before, and where the current thread has, the heap it
      would go back to is not empty. */
  ghost predicate LinksOk(s: State) {
    && (forall c: nat, t :: c < |s.cores| && t in s.cores[c].ready ==> t !in s.stale)
    && (forall c: nat :: c < |s.cores| && s.cores[c].current.Some? && s.cores[c].current.value in s.stale ==> s.cores[c].ready != {})
  }

  /** So preempting a thread never puts it into an empty heap with links left over. */
  lemma PreemptionFits(s: State, c: nat)
    requires LinksOk(s) && c < |s.cores| && s.cores[c].current.Some?
    ensures Fits(s, c, Current(s, c))
  {
  }

  lemma YieldLinks(s: State, c: nat, now: nat)
    requires LinksOk(s) && c < |s.cores| && s.cores[c].current.Some? && Current(s, c) in s.threads
    ensures LinksOk(Yield(s, c, now))
  {
  }

  lemma ParkLinks(s: State, c: nat, now: nat, b: nat, pending: Option<nat>)
    requires LinksOk(s) && c < |s.cores| && s.cores[c].current.Some? && Current(s, c) in s.threads && b < |s.boxes|
    ensures LinksOk(Continuing(Park(s, c, now, b), Current(s, c), pending))
  {
  }

  lemma OneLess(r: set<nat>, x: nat)
    requires x in r && |r| >= 2
    ensures r - {x} != {}
  {
    assert |r - {x}| == |r| - 1;
  }

  lemma DispatchLinks(s: State, place: map<nat, Where>, c: nat, next: nat)
    requires LinksOk(s) && Placed(s, place) && c < |s.cores| && s.cores[c].current.None? && Earliest(s, c, next)
    ensures LinksOk(Dispatch(s, c, next))
  {
    if s.cores[c].ready != {} {
      var s' := Dispatch(s, c, next);
      assert Is(s, next, Ready(c));
      if |s.cores[c].ready| >= 2 {
        OneLess(s.cores[c].ready, next);
      }
      forall d: nat, t | d < |s'.cores| && t in s'.cores[d].ready ensures t !in s'.stale {
        assert t in s.cores[d].ready && Is(s, t, Ready(d));
      }
      forall d: nat | d < |s'.cores| && s'.cores[d].current.Some? && s'.cores[d].current.value in s'.stale
        ensures s'.cores[d].ready != {}
      {
        assert d != c ==> Is(s, s.cores[d].current.value, Running(d));
      }
    }
  }

  lemma PlaceLinks(s: State, t: nat)
    requires LinksOk(s) && |s.cores| > 0 && Fits(s, Lightest(s.cores, |s.cores|), t)
    ensures LinksOk(Place(s, t))
  {
    hide Lightest;
  }

  /** The same heaps, and no more links left over than of threads that are nowhere on a core. */
  lemma LooseLinks(s: State, s': State, t: nat)
    requires LinksOk(s) && s'.cores == s.cores && s'.stale <= s.stale + {t}
    requires forall c: nat :: c < |s.cores| ==> s.cores[c].current != Some(t) && t !in s.cores[c].ready
    ensures LinksOk(s')
  {
  }

  lemma SentLinks(s: State, place: map<nat, Where>, b: nat, message: Message)
    requires LinksOk(s) && Placed(s, place) && b < |s.boxes| && |s.sent| == |s.boxes| && |s.cores| > 0 && Wakes(s, b)
    ensures LinksOk(Sent(s, b, message))
  {
    hide Lightest, LinksOk;
    var s1 := Queued(s, b, message);
    SameLinks(s, s1);
    var w := s1.boxes[b].waiting;
    if w != [] {
      assert Is(s, w[0], Waiting(b));
      forall c: nat | c < |s.cores| ensures s.cores[c].current != Some(w[0]) && w[0] !in s.cores[c].ready {
        var t := w[0];
        assert !Is(s, t, Running(c)) && !Is(s, t, Ready(c));
      }
      LooseLinks(s1, Unwaited(s1, b), w[0]);
      PlaceLinks(Unwaited(s1, b), w[0]);
    }
  }

  lemma SameWakes(s: State, s': State, b: nat)
    requires b < |s.boxes| && |s.cores| > 0 && s'.boxes == s.boxes && s'.cores == s.cores && s'.stale == s.stale
    ensures Wakes(s', b) == Wakes(s, b)
  {
  }

  lemma SameLinks(s: State, s': State)
    requires LinksOk(s) && s'.cores == s.cores && s'.stale == s.stale
    ensures LinksOk(s')
  {
  }

  lemma SpawnedLinks(s: State, p: nat, t: nat, now: nat)
    requires LinksOk(s) && |s.cores| > 0
    ensures LinksOk(Spawned(s, p, t, now))
  {
    hide Lightest;
    var s1 := s.(threads := s.threads[t := Thread(p, now, None)], clock := now + 1, stale := s.stale - {t});
    assert LinksOk(s1);
    PlaceLinks(s1, t);
  }

  lemma PreemptedLinks(s: State, place: map<nat, Where>, c: nat, now: nat, next: nat)
    requires LinksOk(s) && Placed(s, place) && c < |s.cores| && (s.cores[c].current.Some? ==> Current(s, c) in s.threads)
    requires Earliest(if s.cores[c].current.Some? then Yield(s, c, now) else s, c, next)
    ensures LinksOk(Preempted(s, c, now, next))
  {
    hide Placed, LinksOk;
    if s.cores[c].current.Some? {
      YieldLinks(s, c, now);
      YieldPlaced(s, place, c, now);
      DispatchLinks(Yield(s, c, now), place[Current(s, c) := Ready(c)], c, next);
    } else {
      DispatchLinks(s, place, c, next);
    }
  }

  lemma ParkedLinks(s: State, place: map<nat, Where>, c: nat, now: nat, b: nat, pending: Option<nat>, next: nat)
    requires LinksOk(s) && Placed(s, place) && c < |s.cores| && s.cores[c].current.Some? && Current(s, c) in s.threads && b < |s.boxes|
    requires Earliest(Park(s, c, now, b), c, next)
    ensures LinksOk(Parked(s, c, now, b, pending, next))
  {
    hide Placed, LinksOk;
    var t, s1 := Current(s, c), Park(s, c, now, b);
    var s2 := Continuing(s1, t, pending);
    ParkLinks(s, c, now, b, pending);
    ParkPlaced(s, place, c, now, b);
    SamePlaced(s1, s2, place[t := Waiting(b)]);
    DispatchLinks(s2, place[t := Waiting(b)], c, next);
  }

  lemma ReceivedLinks(s: State, t: nat, b: nat, token: nat)
    requires LinksOk(s) && t in s.threads && s.threads[t].process < |s.processes|
    requires b < |s.boxes| && |s.received| == |s.boxes| && s.boxes[b].queue != []
    ensures LinksOk(Received(s, t, b, token)) && LinksOk(Received(Continuing(s, t, None), t, b, token))
  {
    SameLinks(s, Received(s, t, b, token));
    SameLinks(s, Received(Continuing(s, t, None), t, b, token));
  }

  lemma QuietLinks(s: State, a: Action, s': State)
    requires Step(s, a, s') && LinksOk(s) && (a.Release? || a.CreateMailbox? || a.CreateProcess? || a.CreateObject?)
    ensures LinksOk(s')
  {
    hide LinksOk, Granted;
    SameLinks(s, s');
  }

  lemma LaunchedLinks(s: State, from: nat, bootstrap: nat, p: nat, token: nat, handle: nat, thread: nat, now: nat)
    requires LinksOk(s) && from < |s.processes| && p < |s.processes| && |s.cores| > 0
    ensures LinksOk(Launched(s, from, bootstrap, p, token, handle, thread, now)) && LinksOk(Spawned(Started(s, p), p, thread, now))
  {
    hide LinksOk, Spawned;
    var s1 := Registered(Unregistered(Started(s, p), from, bootstrap), p, token, handle);
    SameLinks(s, s1);
    SpawnedLinks(s1, p, thread, now);
    SameLinks(s, Started(s, p));
    SpawnedLinks(Started(s, p), p, thread, now);
  }

  /** Every step keeps the heaps free of links left over. */
  lemma StepLinks(s: State, a: Action, s': State, place: map<nat, Where>)
    requires Step(s, a, s') && LinksOk(s) && Placed(s, place)
    ensures LinksOk(s')
  {
    hide LinksOk, Placed, Preempted, Parked, Sent, Received, Launched, Spawned, Earliest, Opened, Founded, NewHandle,
         Denial, Refusal, Granted, Started, Fits, Wakes;
    if s' != s {
      match a
      case Preempt(c, now, next) => PreemptedLinks(s, place, c, now, next);
      case Read(c, via, poll, now, next, token) =>
        var b := BoxVia(s, c, via);
        if s.boxes[b].queue != [] {
          ReceivedLinks(s, Current(s, c), b, token);
        } else {
          ParkedLinks(s, place, c, now, b, Some(b), next);
        }
      case Resume(c, now, next, token) =>
        var t := Current(s, c);
        var b := s.threads[t].pending.value;
        if s.boxes[b].queue != [] {
          ReceivedLinks(s, t, b, token);
        } else {
          ParkedLinks(s, place, c, now, b, None, next);
        }
      case WriteData(c, via, value) => SentLinks(s, place, BoxVia(s, c, via), Data(value));
      case WriteHandle(c, via, token) =>
        MayGive(s, c, token);
        var p := s.threads[Current(s, c)].process;
        UnregisteredPlaces(s, p, token);
        SamePlaced(s, Unregistered(s, p, token), place);
        SameLinks(s, Unregistered(s, p, token));
        SameWakes(s, Unregistered(s, p, token), BoxVia(s, c, via));
        SentLinks(Unregistered(s, p, token), place, BoxVia(s, c, via), Carry(Handles(s, c)[token]));
      case Start(c, via, bootstrap, token, thread, now) =>
        MayGive(s, c, bootstrap);
        LaunchedLinks(s, s.threads[Current(s, c)].process, bootstrap, ProcessVia(s, c, via), token, Handles(s, c)[bootstrap], thread, now);
      case Spawn(c, p, thread, now) => LaunchedLinks(s, p, 0, p, 0, 0, thread, now);
      case _ => QuietLinks(s, a, s');
    }
  }

  lemma {:induction false} AlwaysLinks(ss: seq<State>, actions: seq<Action>, i: nat, place: map<nat, Where>)
    requires IsRun(ss, actions) && i < |ss| && LinksOk(ss[0]) && Placed(ss[0], place)
    ensures LinksOk(ss[i])
  {
    hide Step, LinksOk, Placed;
    if i > 0 {
      AlwaysLinks(ss, actions, i - 1, place);
      var at := AlwaysPlaced(ss, actions, i - 1, place);
      StepLinks(ss[i - 1], actions[i - 1], ss[i], at);
    }
  }
}
