/** Why mailboxes are read by one thread at a time, as long as processes have one thread each. */
module KernelSingle {
  import opened Basics
  import opened Kernel
  import opened KernelPlaces
  import opened KernelHandles
  import opened KernelMail

  /** Process `p` may read mailbox `b` by the handle under token `k`. */
  predicate ReadsBy(s: State, p: nat, k: nat, b: nat) {
    && p < |s.processes| && k in s.processes[p].handles && s.processes[p].handles[k] in s.grants
    && s.grants[s.processes[p].handles[k]].target == ToBox(b) && s.grants[s.processes[p].handles[k]].read
  }

  ghost predicate MayRead(s: State, p: nat, b: nat) {
    exists k :: ReadsBy(s, p, k, b)
  }

  /** No process has two threads, and one with a thread has been started. */
  ghost predicate Single(s: State) {
    && (forall t, u :: t in s.threads && u in s.threads && s.threads[t].process == s.threads[u].process ==> t == u)
    && (forall t :: t in s.threads ==> s.threads[t].process < |s.processes| && s.processes[s.threads[t].process].started)
  }

  predicate SameEnd(g: Grant, h: Grant) {
    g.read && h.read && g.target.ToBox? && g.target == h.target
  }

  /** A mailbox has one handle to read it. */
  ghost predicate OneReadEnd(s: State) {
    forall g, h :: g in s.grants && h in s.grants && SameEnd(s.grants[g], s.grants[h]) ==> g == h
  }

  /** A thread in the middle of a read still has the handle for it in its process. */
  ghost predicate ReadersHold(s: State) {
    forall t, b {:trigger Engaged(s, t, b)} :: Engaged(s, t, b) ==> MayRead(s, s.threads[t].process, b)
  }

  ghost predicate SingleOk(s: State) {
    Single(s) && OneReadEnd(s) && ReadersHold(s)
  }

  /** The handle is in one place, so only one process may read a mailbox. */
  lemma OneHolder(s: State, spots: map<nat, Spot>, p: nat, k: nat, q: nat, j: nat, b: nat)
    requires OneReadEnd(s) && Held(s, spots) && ReadsBy(s, p, k, b) && ReadsBy(s, q, j, b)
    ensures p == q && k == j
  {
    assert Has(s, s.processes[p].handles[k], InTable(p, k));
    assert Has(s, s.processes[q].handles[j], InTable(q, j));
  }

  /** So no read begins while another of the same mailbox is under way. */
  lemma SingleAlone(s: State, a: Action, spots: map<nat, Spot>)
    requires Sane(s) && Enabled(s, a) && SingleOk(s) && Held(s, spots)
    ensures Alone(s, a)
  {
    hide Earliest, Granted, Held, OneReadEnd;
    if a.Read? && Denial(s, a.core, a.via, ReadBox) == Ok {
      var t, b := Current(s, a.core), BoxVia(s, a.core, a.via);
      assert ReadsBy(s, s.threads[t].process, a.via, b);
      forall u | Engaged(s, u, b) ensures u == t {
        var k :| ReadsBy(s, s.threads[u].process, k, b);
        OneHolder(s, spots, s.threads[t].process, a.via, s.threads[u].process, k, b);
      }
    }
  }

  // ---------------------------------------------------------------------------------------
  // The moves

  /** Processes keep their handles, and threads their processes; nobody begins to read. */
  ghost predicate Keeps(s: State, s': State) {
    && |s'.processes| >= |s.processes| && s'.threads.Keys == s.threads.Keys
    && (forall p: nat {:trigger s'.processes[p]} :: p < |s.processes| ==>
          && (s.processes[p].started ==> s'.processes[p].started)
          && (forall k :: k in s.processes[p].handles ==>
                k in s'.processes[p].handles && s'.processes[p].handles[k] == s.processes[p].handles[k]))
    && (forall h :: h in s.grants ==> h in s'.grants && s'.grants[h] == s.grants[h])
    && (forall t :: t in s.threads ==> s'.threads[t].process == s.threads[t].process)
    && (forall t, b {:trigger Engaged(s', t, b)} :: Engaged(s', t, b) ==> Engaged(s, t, b))
  }

  lemma KeepsSingle(s: State, s': State)
    requires SingleOk(s) && Keeps(s, s') && OneReadEnd(s')
    ensures SingleOk(s')
  {
    forall t, b | Engaged(s', t, b) ensures MayRead(s', s'.threads[t].process, b) {
      assert Engaged(s, t, b);
      var k :| ReadsBy(s, s.threads[t].process, k, b);
      assert ReadsBy(s', s'.threads[t].process, k, b);
    }
  }

  lemma SameGrantsOneEnd(s: State, s': State)
    requires OneReadEnd(s) && s'.grants == s.grants
    ensures OneReadEnd(s')
  {
  }

  /** A process whose threads are not reading gives up a handle. */
  lemma UnregisteredSingle(s: State, p: nat, token: nat)
    requires SingleOk(s) && p < |s.processes|
    requires forall t :: t in s.threads && s.threads[t].process == p ==> s.threads[t].pending.None?
    ensures SingleOk(Unregistered(s, p, token))
  {
    var s' := Unregistered(s, p, token);
    forall t, b | Engaged(s', t, b) ensures MayRead(s', s'.threads[t].process, b) {
      assert Engaged(s, t, b);
      var k :| ReadsBy(s, s.threads[t].process, k, b);
      assert ReadsBy(s', s'.threads[t].process, k, b);
    }
  }

  lemma ParkedTables(s: State, c: nat, now: nat, b: nat, pending: Option<nat>, next: nat)
    requires c < |s.cores| && s.cores[c].current.Some? && Current(s, c) in s.threads && b < |s.boxes|
    ensures var s', t := Parked(s, c, now, b, pending, next), Current(s, c);
            && s'.processes == s.processes && s'.grants == s.grants && s'.threads.Keys == s.threads.Keys
            && (forall u :: u in s.threads ==> s'.threads[u].process == s.threads[u].process)
            && (forall u, x: nat {:trigger Engaged(s', u, x)} ::
                  Engaged(s', u, x) <==> if u == t then pending == Some(x) else Engaged(s, u, x))
  {
  }

  lemma ParkedSingle(s: State, c: nat, now: nat, b: nat, next: nat, k: nat)
    requires SingleOk(s) && c < |s.cores| && s.cores[c].current.Some? && Current(s, c) in s.threads && b < |s.boxes|
    requires ReadsBy(s, s.threads[Current(s, c)].process, k, b)
    ensures SingleOk(Parked(s, c, now, b, Some(b), next))
  {
    hide Parked;
    var s' := Parked(s, c, now, b, Some(b), next);
    ParkedTables(s, c, now, b, Some(b), next);
    forall t, x | Engaged(s', t, x) ensures MayRead(s', s'.threads[t].process, x) {
      if t == Current(s, c) {
        assert ReadsBy(s', s'.threads[t].process, k, x);
      } else {
        assert Engaged(s, t, x);
        var j :| ReadsBy(s, s.threads[t].process, j, x);
        assert ReadsBy(s', s'.threads[t].process, j, x);
      }
    }
  }

  /** A process without threads gets one. */
  lemma SpawnedSingle(s: State, p: nat, t: nat, now: nat)
    requires SingleOk(s) && |s.cores| > 0 && t !in s.threads && p < |s.processes| && s.processes[p].started
    requires forall u :: u in s.threads ==> s.threads[u].process != p
    ensures SingleOk(Spawned(s, p, t, now))
  {
    hide Lightest;
    var s' := Spawned(s, p, t, now);
    forall u, b | Engaged(s', u, b) ensures MayRead(s', s'.threads[u].process, b) {
      assert Engaged(s, u, b);
      var k :| ReadsBy(s, s.threads[u].process, k, b);
      assert ReadsBy(s', s'.threads[u].process, k, b);
    }
  }

  lemma NewHandleSingle(s: State, p: nat, token: nat, handle: nat, grant: Grant)
    requires SingleOk(s) && p < |s.processes| && token !in s.processes[p].handles && handle !in s.grants
    requires grant.read && grant.target.ToBox? ==> forall h :: h in s.grants && s.grants[h].read ==> s.grants[h].target != grant.target
    ensures SingleOk(NewHandle(s, p, token, handle, grant))
  {
    KeepsSingle(s, NewHandle(s, p, token, handle, grant));
  }

  // ---------------------------------------------------------------------------------------
  // Steps and runs

  lemma PreemptedKeeps(s: State, c: nat, now: nat, next: nat)
    requires c < |s.cores| && (s.cores[c].current.Some? ==> Current(s, c) in s.threads)
    ensures Keeps(s, Preempted(s, c, now, next)) && Preempted(s, c, now, next).grants == s.grants
  {
  }

  lemma ReceivedKeeps(s: State, t: nat, b: nat, token: nat)
    requires t in s.threads && s.threads[t].process < |s.processes|
    requires b < |s.boxes| && |s.received| == |s.boxes| && s.boxes[b].queue != []
    requires s.boxes[b].queue[0].Carry? ==> token !in s.processes[s.threads[t].process].handles
    ensures Keeps(s, Received(s, t, b, token)) && Received(s, t, b, token).grants == s.grants
    ensures Keeps(s, Received(Continuing(s, t, None), t, b, token)) && Received(Continuing(s, t, None), t, b, token).grants == s.grants
  {
  }

  lemma SentKeeps(s: State, b: nat, message: Message)
    requires b < |s.boxes| && |s.sent| == |s.boxes| && |s.cores| > 0
    ensures Keeps(s, Sent(s, b, message)) && Sent(s, b, message).grants == s.grants
  {
    hide Lightest;
  }

  lemma StartedKeeps(s: State, p: nat, token: nat, handle: nat)
    requires p < |s.processes|
    ensures Keeps(s, Started(s, p)) && Started(s, p).grants == s.grants
    ensures token !in s.processes[p].handles ==> Keeps(s, Registered(s, p, token, handle)) && Registered(s, p, token, handle).grants == s.grants
  {
  }

  lemma NewKeeps(s: State)
    ensures Keeps(s, NewBox(s)) && NewBox(s).grants == s.grants
    ensures var s' := s.(processes := s.processes + [Process(map[], false)]); Keeps(s, s') && s'.grants == s.grants
  {
  }

  lemma GaveSingle(s: State, s': State)
    requires SingleOk(s) && Keeps(s, s') && s'.grants == s.grants
    ensures SingleOk(s')
  {
    SameGrantsOneEnd(s, s');
    KeepsSingle(s, s');
  }

  /** The only thread of a process is not reading while it makes a call. */
  lemma NotReading(s: State, c: nat)
    requires Single(s) && Runs(s, c)
    ensures forall t :: t in s.threads && s.threads[t].process == s.threads[Current(s, c)].process ==> s.threads[t].pending.None?
  {
  }

  lemma LaunchedSingle(s: State, from: nat, bootstrap: nat, p: nat, token: nat, handle: nat, thread: nat, now: nat)
    requires SingleOk(s) && from < |s.processes| && p < |s.processes| && |s.cores| > 0 && thread !in s.threads
    requires !s.processes[p].started && (token in s.processes[p].handles ==> p == from && token == bootstrap)
    requires forall t :: t in s.threads && s.threads[t].process == from ==> s.threads[t].pending.None?
    ensures SingleOk(Launched(s, from, bootstrap, p, token, handle, thread, now))
  {
    hide Spawned, OneReadEnd, ReadersHold;
    var s1 := Started(s, p);
    StartedKeeps(s, p, token, handle);
    GaveSingle(s, s1);
    UnregisteredSingle(s1, from, bootstrap);
    var s2 := Unregistered(s1, from, bootstrap);
    StartedKeeps(s2, p, token, handle);
    GaveSingle(s2, Registered(s2, p, token, handle));
    SpawnedSingle(Registered(s2, p, token, handle), p, thread, now);
  }

  lemma OpenedSingle(s: State, p: nat, readToken: nat, reader: nat, writeToken: nat, writer: nat)
    requires Sane(s) && SingleOk(s) && p < |s.processes| && reader !in s.grants && writer !in s.grants && reader != writer
    requires readToken !in s.processes[p].handles && writeToken !in s.processes[p].handles && readToken != writeToken
    ensures SingleOk(Opened(s, p, readToken, reader, writeToken, writer))
  {
    hide OneReadEnd, ReadersHold, Single;
    var s1, b := NewBox(s), |s.boxes|;
    NewKeeps(s);
    GaveSingle(s, s1);
    forall h | h in s.grants && s.grants[h].read ensures s.grants[h].target != ToBox(b) {
      assert TargetOk(s, s.grants[h]);
    }
    NewHandleSingle(s1, p, readToken, reader, Reading(b));
    NewHandleSingle(NewHandle(s1, p, readToken, reader, Reading(b)), p, writeToken, writer, Writing(b));
  }

  lemma FoundedSingle(s: State, p: nat, token: nat, handle: nat)
    requires SingleOk(s) && p < |s.processes| && handle !in s.grants && token !in s.processes[p].handles
    ensures SingleOk(Founded(s, p, token, handle))
  {
    hide OneReadEnd, ReadersHold, Single;
    NewKeeps(s);
    GaveSingle(s, s.(processes := s.processes + [Process(map[], false)]));
    NewHandleSingle(s.(processes := s.processes + [Process(map[], false)]), p, token, handle, Owning(|s.processes|));
  }

  lemma ReadSingle(s: State, a: Action, s': State)
    requires Step(s, a, s') && SingleOk(s) && s' != s && (a.Read? || a.Resume?)
    ensures SingleOk(s')
  {
    hide SingleOk, Parked, Received, Earliest, Granted, Keeps;
    var c := a.core;
    var t := Current(s, c);
    if a.Read? {
      var b := BoxVia(s, c, a.via);
      if s.boxes[b].queue != [] {
        ReceivedKeeps(s, t, b, a.token);
        GaveSingle(s, s');
      } else {
        assert ReadsBy(s, s.threads[t].process, a.via, b);
        ParkedSingle(s, c, a.now, b, a.next, a.via);
      }
    } else {
      var b := s.threads[t].pending.value;
      if s.boxes[b].queue != [] {
        ReceivedKeeps(s, t, b, a.token);
      } else {
        ParkedKeeps(s, c, a.now, b, a.next);
      }
      GaveSingle(s, s');
    }
  }

  lemma ParkedKeeps(s: State, c: nat, now: nat, b: nat, next: nat)
    requires c < |s.cores| && s.cores[c].current.Some? && Current(s, c) in s.threads && b < |s.boxes|
    ensures Keeps(s, Parked(s, c, now, b, None, next)) && Parked(s, c, now, b, None, next).grants == s.grants
  {
    hide Parked;
    ParkedTables(s, c, now, b, None, next);
  }

  /** Every step but that of giving a process another thread keeps it so. */
  lemma StepSingle(s: State, a: Action, s': State)
    requires Step(s, a, s') && SingleOk(s) && !a.Spawn?
    ensures SingleOk(s')
  {
    hide SingleOk, Preempted, Parked, Sent, Received, Launched, Spawned, Earliest, Opened, Founded, NewHandle, Keeps,
         Denial, Refusal, Granted, Wakes, Fits, Started;
    if s' != s {
      match a
      case Preempt(c, now, next) =>
        PreemptedKeeps(s, c, now, next);
        GaveSingle(s, s');
      case Read(_, _, _, _, _, _) => ReadSingle(s, a, s');
      case Resume(_, _, _, _) => ReadSingle(s, a, s');
      case WriteData(c, via, value) =>
        SentKeeps(s, BoxVia(s, c, via), Data(value));
        GaveSingle(s, s');
      case WriteHandle(c, via, token) =>
        MayGive(s, c, token);
        CallerSingle(s, c);
        var s1 := Unregistered(s, s.threads[Current(s, c)].process, token);
        UnregisteredSingle(s, s.threads[Current(s, c)].process, token);
        SentKeeps(s1, BoxVia(s, c, via), Carry(Handles(s, c)[token]));
        GaveSingle(s1, s');
      case Release(c, token) =>
        CallerSingle(s, c);
        UnregisteredSingle(s, s.threads[Current(s, c)].process, token);
      case Start(c, via, bootstrap, token, thread, now) =>
        MayGive(s, c, bootstrap);
        CallerSingle(s, c);
        LaunchedSingle(s, s.threads[Current(s, c)].process, bootstrap, ProcessVia(s, c, via), token, Handles(s, c)[bootstrap], thread, now);
      case CreateMailbox(c, readToken, writeToken, reader, writer) =>
        OpenedSingle(s, s.threads[Current(s, c)].process, readToken, reader, writeToken, writer);
      case CreateProcess(c, token, handle) => FoundedSingle(s, s.threads[Current(s, c)].process, token, handle);
      case CreateObject(c, token, handle, transfer) =>
        NewHandleSingle(s, s.threads[Current(s, c)].process, token, handle, Grant(ToOther, true, true, transfer));
      case Spawn(_, _, _, _) =>
    }
  }

  lemma CallerSingle(s: State, c: nat)
    requires SingleOk(s) && Runs(s, c)
    ensures forall t :: t in s.threads && s.threads[t].process == s.threads[Current(s, c)].process ==> s.threads[t].pending.None?
  {
    NotReading(s, c);
  }

  lemma {:induction false} AlwaysSingle(ss: seq<State>, actions: seq<Action>, i: nat)
    requires IsRun(ss, actions) && i < |ss| && SingleOk(ss[0])
    requires forall k: nat :: k < |actions| ==> !actions[k].Spawn?
    ensures SingleOk(ss[i])
  {
    hide Step, SingleOk;
    if i > 0 {
      AlwaysSingle(ss, actions, i - 1);
      StepSingle(ss[i - 1], actions[i - 1], ss[i]);
    }
  }

  /** In every run in which no process is given a second thread, mailboxes are in order throughout,
      wherever the handles to read them have been handed over to. */
  lemma MailInOrder(ss: seq<State>, actions: seq<Action>, i: nat, place: map<nat, Where>, spots: map<nat, Spot>)
    requires IsRun(ss, actions) && i < |ss| && MailOk(ss[0]) && Placed(ss[0], place) && Held(ss[0], spots) && SingleOk(ss[0])
    requires forall k: nat :: k < |actions| ==> !actions[k].Spawn?
    ensures MailOk(ss[i])
  {
    hide MailOk, Placed, Held, SingleOk, Alone, Enabled, After, Sane;
    forall k: nat | k < |actions| ensures Alone(ss[k], actions[k]) {
      assert Step(ss[k], actions[k], ss[k + 1]);
      AlwaysSingle(ss, actions, k);
      var at := AlwaysHeld(ss, actions, k, spots);
      SingleAlone(ss[k], actions[k], at);
    }
    AlwaysMail(ss, actions, i, place);
  }
}
