/** How long a ready thread can be kept waiting for its core. */
module KernelWaiting {
  import opened Basics
  import opened Kernel
  import opened KernelPlaces

  /** No thread has a timestamp that is still to come. */
  ghost predicate Clocked(s: State) {
    forall t :: t in s.threads ==> s.threads[t].stamp < s.clock
  }

  ghost predicate Waits(s: State, c: nat, target: nat) {
    c < |s.cores| && target in s.threads && target in s.cores[c].ready
  }

  /** The other threads that are not stamped later than `target`. */
  ghost function Others(s: State, target: nat): set<nat>
    requires target in s.threads
  {
    set x | x in s.threads && x != target && s.threads[x].stamp <= s.threads[target].stamp
  }

  /** Those of them that core `c` is not running. */
  ghost function Ahead(s: State, c: nat, target: nat): set<nat>
    requires target in s.threads && c < |s.cores|
  {
    set x | x in Others(s, target) && s.cores[c].current != Some(x)
  }

  /** The action makes core `c` choose a thread anew. */
  ghost predicate Reschedules(s: State, a: Action, c: nat)
    requires Sane(s) && Enabled(s, a)
  {
    a.core == c && (a.Preempt? || After(s, a).1.Blocked?)
  }

  lemma SmallerSetBy(a: set<nat>, b: set<nat>, x: nat)
    requires a <= b - {x} && x in b
    ensures |a| < |b|
  {
    SmallerSet(a, b - {x});
  }

  /** From `s` to `s'`, nobody new got ahead. */
  ghost predicate NoneCutIn(s: State, s': State, c: nat, target: nat) {
    && Waits(s, c, target) && Waits(s', c, target) && Clocked(s')
    && s'.threads[target].stamp == s.threads[target].stamp
    && Ahead(s', c, target) <= Ahead(s, c, target)
  }

  // ---------------------------------------------------------------------------------------
  // The moves

  lemma YieldAhead(s: State, place: map<nat, Where>, d: nat, now: nat, c: nat, target: nat)
    requires Placed(s, place) && Clocked(s) && Waits(s, c, target) && Later(s, now)
    requires d < |s.cores| && s.cores[d].current.Some? && Current(s, d) in s.threads
    ensures NoneCutIn(s, Yield(s, d, now), c, target)
  {
    assert Is(s, Current(s, d), Running(d)) && Is(s, target, Ready(c));
  }

  lemma ParkAhead(s: State, place: map<nat, Where>, d: nat, now: nat, b: nat, pending: Option<nat>, c: nat, target: nat)
    requires Placed(s, place) && Clocked(s) && Waits(s, c, target) && Later(s, now)
    requires d < |s.cores| && s.cores[d].current.Some? && Current(s, d) in s.threads && b < |s.boxes|
    ensures NoneCutIn(s, Continuing(Park(s, d, now, b), Current(s, d), pending), c, target)
  {
    assert Is(s, Current(s, d), Running(d)) && Is(s, target, Ready(c));
  }

  /** The thread that core `c` takes instead of `target` was ahead, and is not any more. */
  lemma DispatchAhead(s: State, d: nat, next: nat, c: nat, target: nat)
    requires Clocked(s) && Waits(s, c, target) && d < |s.cores| && s.cores[d].current.None? && Earliest(s, d, next)
    requires Waits(Dispatch(s, d, next), c, target)
    ensures NoneCutIn(s, Dispatch(s, d, next), c, target)
    ensures d == c ==> |Ahead(Dispatch(s, d, next), c, target)| < |Ahead(s, c, target)|
  {
    if d == c {
      assert next in Ahead(s, c, target);
      SmallerSetBy(Ahead(Dispatch(s, d, next), c, target), Ahead(s, c, target), next);
    }
  }

  /** Moves that stamp nobody and leave core `c` with its thread. */
  ghost predicate SameStamps(s: State, s': State, c: nat) {
    && |s'.cores| == |s.cores| && (c < |s.cores| ==> s'.cores[c].current == s.cores[c].current)
    && s'.threads.Keys == s.threads.Keys && s'.clock == s.clock
    && (forall t :: t in s.threads ==> s'.threads[t].stamp == s.threads[t].stamp)
  }

  lemma SameAhead(s: State, s': State, c: nat, target: nat)
    requires SameStamps(s, s', c) && Clocked(s) && Waits(s, c, target) && Waits(s', c, target)
    ensures NoneCutIn(s, s', c, target)
  {
  }

  lemma SpawnedAhead(s: State, p: nat, t: nat, now: nat, c: nat, target: nat)
    requires Clocked(s) && Waits(s, c, target) && Later(s, now) && t !in s.threads
    ensures NoneCutIn(s, Spawned(s, p, t, now), c, target)
  {
  }

  lemma CutInTransitive(s: State, s1: State, s2: State, c: nat, target: nat)
    requires NoneCutIn(s, s1, c, target) && NoneCutIn(s1, s2, c, target)
    ensures NoneCutIn(s, s2, c, target)
  {
  }

  // ---------------------------------------------------------------------------------------
  // Calls

  lemma PreemptedAhead(s: State, place: map<nat, Where>, d: nat, now: nat, next: nat, c: nat, target: nat)
    requires Placed(s, place) && Clocked(s) && Waits(s, c, target) && Later(s, now)
    requires d < |s.cores| && (s.cores[d].current.Some? ==> Current(s, d) in s.threads)
    requires Earliest(if s.cores[d].current.Some? then Yield(s, d, now) else s, d, next)
    requires Waits(Preempted(s, d, now, next), c, target)
    ensures NoneCutIn(s, Preempted(s, d, now, next), c, target)
    ensures d == c ==> |Ahead(Preempted(s, d, now, next), c, target)| < |Ahead(s, c, target)|
  {
    hide NoneCutIn, Placed;
    var s1 := s;
    if s.cores[d].current.Some? {
      YieldAhead(s, place, d, now, c, target);
      s1 := Yield(s, d, now);
      CutInFacts(s, s1, c, target);
    }
    DispatchAhead(s1, d, next, c, target);
    if s.cores[d].current.Some? {
      CutInTransitive(s, s1, Dispatch(s1, d, next), c, target);
    }
  }

  lemma CutInFacts(s: State, s': State, c: nat, target: nat)
    requires NoneCutIn(s, s', c, target)
    ensures Clocked(s') && Waits(s', c, target) && Waits(s, c, target) && |Ahead(s', c, target)| <= |Ahead(s, c, target)|
  {
    SmallerSet(Ahead(s', c, target), Ahead(s, c, target));
  }

  lemma ParkedAhead(s: State, place: map<nat, Where>, d: nat, now: nat, b: nat, pending: Option<nat>, next: nat, c: nat, target: nat)
    requires Placed(s, place) && Clocked(s) && Waits(s, c, target) && Later(s, now)
    requires d < |s.cores| && s.cores[d].current.Some? && Current(s, d) in s.threads && b < |s.boxes|
    requires Earliest(Park(s, d, now, b), d, next) && Waits(Parked(s, d, now, b, pending, next), c, target)
    ensures NoneCutIn(s, Parked(s, d, now, b, pending, next), c, target)
    ensures d == c ==> |Ahead(Parked(s, d, now, b, pending, next), c, target)| < |Ahead(s, c, target)|
  {
    hide NoneCutIn, Placed;
    var s1 := Continuing(Park(s, d, now, b), Current(s, d), pending);
    ParkAhead(s, place, d, now, b, pending, c, target);
    CutInFacts(s, s1, c, target);
    DispatchAhead(s1, d, next, c, target);
    CutInTransitive(s, s1, Dispatch(s1, d, next), c, target);
  }

  lemma SentStamps(s: State, b: nat, message: Message, c: nat)
    requires b < |s.boxes| && |s.sent| == |s.boxes| && |s.cores| > 0
    ensures SameStamps(s, Sent(s, b, message), c)
  {
    hide Lightest;
  }

  lemma ReceivedStamps(s: State, t: nat, b: nat, token: nat, c: nat)
    requires t in s.threads && s.threads[t].process < |s.processes|
    requires b < |s.boxes| && |s.received| == |s.boxes| && s.boxes[b].queue != []
    ensures SameStamps(s, Received(s, t, b, token), c) && SameStamps(s, Received(Continuing(s, t, None), t, b, token), c)
  {
  }

  lemma QuietStamps(s: State, a: Action, s': State, c: nat)
    requires Step(s, a, s') && (a.Release? || a.CreateMailbox? || a.CreateProcess? || a.CreateObject?)
    ensures SameStamps(s, s', c)
  {
  }

  lemma LaunchedAhead(s: State, from: nat, bootstrap: nat, p: nat, token: nat, handle: nat, thread: nat, now: nat, c: nat, target: nat)
    requires Clocked(s) && Waits(s, c, target) && Later(s, now) && thread !in s.threads
    requires from < |s.processes| && p < |s.processes|
    ensures NoneCutIn(s, Launched(s, from, bootstrap, p, token, handle, thread, now), c, target)
  {
    hide NoneCutIn;
    var s1 := Registered(Unregistered(Started(s, p), from, bootstrap), p, token, handle);
    SameAhead(s, s1, c, target);
    CutInFacts(s, s1, c, target);
    SpawnedAhead(s1, p, thread, now, c, target);
    CutInTransitive(s, s1, Spawned(s1, p, thread, now), c, target);
  }

  /** While `target` stays ready on core `c`, nobody new gets ahead of it, and each time the core
      chooses anew one thread less is ahead. */
  lemma StepAhead(s: State, a: Action, s': State, place: map<nat, Where>, c: nat, target: nat)
    requires Step(s, a, s') && Placed(s, place) && Clocked(s) && Waits(s, c, target) && Waits(s', c, target)
    ensures NoneCutIn(s, s', c, target)
    ensures Reschedules(s, a, c) ==> |Ahead(s', c, target)| < |Ahead(s, c, target)|
  {
    hide NoneCutIn, Placed, Preempted, Parked, Sent, Received, Launched, Spawned, SameStamps, Earliest, Opened, Founded, NewHandle,
         Unregistered, Clocked, Waits, Ahead, Denial, Refusal, Granted, Wakes, Fits, Started;
    match a
    case Preempt(d, now, next) => PreemptedAhead(s, place, d, now, next, c, target);
    case Read(d, via, poll, now, next, token) =>
      Unchanged(s, c, target);
      if Denial(s, d, via, ReadBox) == Ok {
        var b := BoxVia(s, d, via);
        if s.boxes[b].queue != [] {
          ReceivedStamps(s, Current(s, d), b, token, c);
          SameAhead(s, s', c, target);
        } else if !poll {
          ParkedAhead(s, place, d, now, b, Some(b), next, c, target);
        }
      } else {
        DenialKinds(s, d, via, ReadBox);
      }
    case Resume(d, now, next, token) =>
      var t := Current(s, d);
      var b := s.threads[t].pending.value;
      if s.boxes[b].queue != [] {
        ReceivedStamps(s, t, b, token, c);
        SameAhead(s, s', c, target);
      } else {
        ParkedAhead(s, place, d, now, b, None, next, c, target);
      }
    case WriteData(d, via, value) =>
      Unchanged(s, c, target);
      DenialKinds(s, d, via, WriteBox);
      if Denial(s, d, via, WriteBox) == Ok {
        SentStamps(s, BoxVia(s, d, via), Data(value), c);
        SameAhead(s, s', c, target);
      }
    case WriteHandle(d, via, token) =>
      Unchanged(s, c, target);
      DenialKinds(s, d, via, WriteBox);
      RefusalKinds(s, d, token);
      if Denial(s, d, via, WriteBox) == Ok && Refusal(s, d, token) == Ok {
        MayGive(s, d, token);
        TransferStamps(s, s.threads[Current(s, d)].process, token, BoxVia(s, d, via), Carry(Handles(s, d)[token]), c);
        SameAhead(s, s', c, target);
      }
    case Start(d, via, bootstrap, token, thread, now) =>
      Unchanged(s, c, target);
      DenialKinds(s, d, via, StartProcess);
      RefusalKinds(s, d, bootstrap);
      if s' != s {
        MayGive(s, d, bootstrap);
        LaunchedAhead(s, s.threads[Current(s, d)].process, bootstrap, ProcessVia(s, d, via), token, Handles(s, d)[bootstrap], thread, now, c, target);
      }
    case Spawn(d, p, thread, now) => StartedSpawnedAhead(s, p, thread, now, c, target);
    case _ =>
      QuietStamps(s, a, s', c);
      SameAhead(s, s', c, target);
  }

  lemma DenialKinds(s: State, c: nat, via: nat, use: Use)
    requires Runs(s, c) && s.threads[Current(s, c)].process < |s.processes|
    ensures Denial(s, c, via, use) in {Ok, InvalidToken, WrongType, NotAllowed}
  {
  }

  lemma RefusalKinds(s: State, c: nat, token: nat)
    requires Runs(s, c) && s.threads[Current(s, c)].process < |s.processes|
    ensures Refusal(s, c, token) in {Ok, InvalidToken, NotAllowed}
  {
  }

  lemma StartedSpawnedAhead(s: State, p: nat, t: nat, now: nat, c: nat, target: nat)
    requires Clocked(s) && Waits(s, c, target) && Later(s, now) && t !in s.threads && p < |s.processes|
    ensures NoneCutIn(s, Spawned(Started(s, p), p, t, now), c, target)
  {
    hide NoneCutIn, Spawned;
    SameAhead(s, Started(s, p), c, target);
    CutInFacts(s, Started(s, p), c, target);
    SpawnedAhead(Started(s, p), p, t, now, c, target);
    CutInTransitive(s, Started(s, p), Spawned(Started(s, p), p, t, now), c, target);
  }

  lemma TransferStamps(s: State, p: nat, token: nat, b: nat, message: Message, c: nat)
    requires b < |s.boxes| && |s.sent| == |s.boxes| && |s.cores| > 0 && p < |s.processes|
    ensures SameStamps(s, Sent(Unregistered(s, p, token), b, message), c)
  {
    SentStamps(Unregistered(s, p, token), b, message, c);
  }

  lemma Unchanged(s: State, c: nat, target: nat)
    requires Clocked(s) && Waits(s, c, target)
    ensures NoneCutIn(s, s, c, target)
  {
  }

  /** How often core `c` chose anew in the first `n` steps. */
  ghost function Choices(ss: seq<State>, actions: seq<Action>, c: nat, n: nat): nat
    requires IsRun(ss, actions) && n <= |actions|
  {
    if n == 0 then 0
    else
      assert Step(ss[n - 1], actions[n - 1], ss[n]);
      Choices(ss, actions, c, n - 1) + if Reschedules(ss[n - 1], actions[n - 1], c) then 1 else 0
  }

  // ---------------------------------------------------------------------------------------
  // The clock

  lemma SameClocked(s: State, s': State)
    requires SameStamps(s, s', 0) && Clocked(s)
    ensures Clocked(s')
  {
  }

  lemma MovesClocked(s: State, c: nat, now: nat, next: nat, b: nat, pending: Option<nat>)
    requires Clocked(s) && Later(s, now) && c < |s.cores| && (s.cores[c].current.Some? ==> Current(s, c) in s.threads)
    ensures Clocked(Preempted(s, c, now, next))
    ensures s.cores[c].current.Some? && b < |s.boxes| ==> Clocked(Parked(s, c, now, b, pending, next))
  {
  }

  lemma SpawnedClocked(s: State, p: nat, t: nat, now: nat)
    requires Clocked(s) && Later(s, now) && |s.cores| > 0
    ensures Clocked(Spawned(s, p, t, now))
  {
    hide Lightest;
  }

  lemma LaunchedClocked(s: State, from: nat, bootstrap: nat, p: nat, token: nat, handle: nat, thread: nat, now: nat)
    requires Clocked(s) && Later(s, now) && from < |s.processes| && p < |s.processes| && |s.cores| > 0
    ensures Clocked(Launched(s, from, bootstrap, p, token, handle, thread, now)) && Clocked(Started(s, p))
  {
    hide Spawned;
    SpawnedClocked(Registered(Unregistered(Started(s, p), from, bootstrap), p, token, handle), p, thread, now);
  }

  /** No step stamps a thread with a time that is still to come. */
  lemma StepClocked(s: State, a: Action, s': State)
    requires Step(s, a, s') && Clocked(s)
    ensures Clocked(s')
  {
    hide Preempted, Parked, Sent, Received, Launched, Spawned, SameStamps, Earliest, Opened, Founded, NewHandle,
         Unregistered, Clocked, Denial, Refusal, Granted, Wakes, Fits, Started;
    if s' != s {
      match a
      case Preempt(d, now, next) => MovesClocked(s, d, now, next, 0, None);
      case Read(d, via, poll, now, next, token) =>
        var b := BoxVia(s, d, via);
        if s.boxes[b].queue != [] {
          ReceivedStamps(s, Current(s, d), b, token, 0);
          SameClocked(s, s');
        } else {
          MovesClocked(s, d, now, next, b, Some(b));
        }
      case Resume(d, now, next, token) =>
        var t := Current(s, d);
        var b := s.threads[t].pending.value;
        if s.boxes[b].queue != [] {
          ReceivedStamps(s, t, b, token, 0);
          SameClocked(s, s');
        } else {
          MovesClocked(s, d, now, next, b, None);
        }
      case WriteData(d, via, value) =>
        SentStamps(s, BoxVia(s, d, via), Data(value), 0);
        SameClocked(s, s');
      case WriteHandle(d, via, token) =>
        MayGive(s, d, token);
        TransferStamps(s, s.threads[Current(s, d)].process, token, BoxVia(s, d, via), Carry(Handles(s, d)[token]), 0);
        SameClocked(s, s');
      case Start(d, via, bootstrap, token, thread, now) =>
        MayGive(s, d, bootstrap);
        LaunchedClocked(s, s.threads[Current(s, d)].process, bootstrap, ProcessVia(s, d, via), token, Handles(s, d)[bootstrap], thread, now);
      case Spawn(d, p, thread, now) =>
        LaunchedClocked(s, p, 0, p, 0, 0, thread, now);
        StartedTimes(s, p);
        SpawnedClocked(Started(s, p), p, thread, now);
      case _ =>
        QuietStamps(s, a, s', 0);
        SameClocked(s, s');
    }
  }

  lemma StartedTimes(s: State, p: nat)
    requires p < |s.processes|
    ensures Started(s, p).clock == s.clock && Started(s, p).cores == s.cores
  {
  }

  lemma {:induction false} AlwaysClocked(ss: seq<State>, actions: seq<Action>, i: nat)
    requires IsRun(ss, actions) && i < |ss| && Clocked(ss[0])
    ensures Clocked(ss[i])
  {
    hide Step, Clocked;
    if i > 0 {
      AlwaysClocked(ss, actions, i - 1);
      StepClocked(ss[i - 1], actions[i - 1], ss[i]);
    }
  }

  lemma {:induction false} ChoicesBound(ss: seq<State>, actions: seq<Action>, c: nat, target: nat, place: map<nat, Where>, n: nat)
    requires IsRun(ss, actions) && n <= |actions| && Placed(ss[0], place) && Clocked(ss[0])
    requires Waits(ss[0], c, target) && Waits(ss[n], c, target) && forall i: nat :: i <= n ==> Waits(ss[i], c, target)
    ensures Choices(ss, actions, c, n) + |Ahead(ss[n], c, target)| <= |Ahead(ss[0], c, target)|
    ensures Clocked(ss[n])
  {
    hide Step, Placed, Clocked, Ahead, NoneCutIn;
    if n > 0 {
      ChoicesBound(ss, actions, c, target, place, n - 1);
      var s, a, s' := ss[n - 1], actions[n - 1], ss[n];
      assert Waits(s, c, target) && Waits(s', c, target) && Step(s, a, s');
      var at := AlwaysPlaced(ss, actions, n - 1, place);
      StepAhead(s, a, s', at, c, target);
      CutInFacts(s, s', c, target);
    }
  }

  /** A thread that is ready on a core is dispatched there by the time the core has chosen more often
      than there were other threads not stamped later, whatever else happens. */
  lemma BoundedWaiting(ss: seq<State>, actions: seq<Action>, c: nat, target: nat, place: map<nat, Where>)
    requires IsRun(ss, actions) && Placed(ss[0], place) && Clocked(ss[0])
    requires Waits(ss[0], c, target) && forall i: nat :: i < |ss| ==> Waits(ss[i], c, target)
    ensures Choices(ss, actions, c, |actions|) <= |Others(ss[0], target)|
  {
    assert Waits(ss[0], c, target);
    ChoicesBound(ss, actions, c, target, place, |actions|);
    SmallerSet(Ahead(ss[0], c, target), Others(ss[0], target));
  }

  /** `target` is still ready on core `c`, or the core runs it now. */
  ghost predicate ReadyOrTaken(s: State, c: nat, target: nat) {
    c < |s.cores| && (target in s.cores[c].ready || s.cores[c].current == Some(target))
  }

  lemma MovesKeepReady(s: State, d: nat, now: nat, next: nat, b: nat, pending: Option<nat>, c: nat, target: nat)
    requires Waits(s, c, target) && d < |s.cores| && (s.cores[d].current.Some? ==> Current(s, d) in s.threads)
    ensures ReadyOrTaken(Preempted(s, d, now, next), c, target)
    ensures s.cores[d].current.Some? && b < |s.boxes| ==> ReadyOrTaken(Parked(s, d, now, b, pending, next), c, target)
  {
  }

  lemma MailKeepsReady(s: State, b: nat, message: Message, c: nat, target: nat)
    requires Waits(s, c, target) && b < |s.boxes| && |s.sent| == |s.boxes|
    ensures ReadyOrTaken(Sent(s, b, message), c, target)
  {
    hide Lightest;
  }

  /** Calls that do not concern scheduling. */
  lemma QuietCores(s: State, a: Action, s': State)
    requires Step(s, a, s') && (a.Release? || a.CreateMailbox? || a.CreateProcess? || a.CreateObject?)
    ensures s'.cores == s.cores
  {
  }

  lemma LaunchKeepsReady(s: State, from: nat, bootstrap: nat, p: nat, token: nat, handle: nat, thread: nat, now: nat, c: nat, target: nat)
    requires Waits(s, c, target) && from < |s.processes| && p < |s.processes|
    ensures ReadyOrTaken(Launched(s, from, bootstrap, p, token, handle, thread, now), c, target)
    ensures ReadyOrTaken(Spawned(Started(s, p), p, thread, now), c, target)
  {
    hide Lightest;
  }

  /** A thread that is ready stays so until its core takes it. */
  lemma ReadyUntilTaken(s: State, a: Action, s': State, c: nat, target: nat)
    requires Step(s, a, s') && Waits(s, c, target)
    ensures ReadyOrTaken(s', c, target)
  {
    hide Preempted, Parked, Sent, Launched, Spawned, Earliest, Opened, Founded, NewHandle, Denial, Refusal, Granted, Wakes, Fits;
    if s' != s {
      match a
      case Preempt(d, now, next) => MovesKeepReady(s, d, now, next, 0, None, c, target);
      case Read(d, via, poll, now, next, token) =>
        MovesKeepReady(s, d, now, next, BoxVia(s, d, via), Some(BoxVia(s, d, via)), c, target);
      case Resume(d, now, next, token) =>
        MovesKeepReady(s, d, now, next, s.threads[Current(s, d)].pending.value, None, c, target);
      case WriteData(d, via, value) => MailKeepsReady(s, BoxVia(s, d, via), Data(value), c, target);
      case WriteHandle(d, via, token) =>
        MayGive(s, d, token);
        MailKeepsReady(Unregistered(s, s.threads[Current(s, d)].process, token), BoxVia(s, d, via), Carry(Handles(s, d)[token]), c, target);
      case Start(d, via, bootstrap, token, thread, now) =>
        MayGive(s, d, bootstrap);
        LaunchKeepsReady(s, s.threads[Current(s, d)].process, bootstrap, ProcessVia(s, d, via), token, Handles(s, d)[bootstrap], thread, now, c, target);
      case Spawn(d, p, thread, now) => LaunchKeepsReady(s, p, 0, p, 0, 0, thread, now, c, target);
      case _ => QuietCores(s, a, s');
    }
  }
}
