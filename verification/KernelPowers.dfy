/** What the permissions of handles amount to in whole runs from start-up. */
module KernelPowers {
  import opened Basics
  import opened Kernel
  import opened KernelHandles
  import opened KernelAccess
  import opened KernelRuns

  /** Message `j` of mailbox `b` was written: some step wrote it, with the permission to, as its caller asked to. */
  lemma {:induction false} EveryMessageWritten(ss: seq<State>, actions: seq<Action>, i: nat, b: nat, j: nat)
    requires IsRun(ss, actions) && i < |ss| && b < |ss[i].sent| && j < |ss[i].sent[b]|
    requires b < |ss[0].sent| ==> j >= |ss[0].sent[b]|
    ensures exists k: nat :: k < i && Writes(ss[k], actions[k], b, ss[i].sent[b][j])
    decreases i
  {
    hide Sane, Enabled, After, Writes;
    if i > 0 {
      var s, a, s' := ss[i - 1], actions[i - 1], ss[i];
      assert Step(s, a, s');
      SentBefore(s, a, s', b);
      if j < |s.sent[b]| {
        EveryMessageWritten(ss, actions, i - 1, b, j);
        assert s.sent[b][j] == s'.sent[b][j];
        var k: nat :| k < i - 1 && Writes(ss[k], actions[k], b, s.sent[b][j]);
        assert k < i && Writes(ss[k], actions[k], b, s'.sent[b][j]);
      } else {
        assert Writes(s, a, b, s'.sent[b][j]);
      }
    }
  }

  /** A mailbox with messages was there before. */
  lemma SentBefore(s: State, a: Action, s': State, b: nat)
    requires Step(s, a, s') && b < |s'.sent| && s'.sent[b] != []
    ensures b < |s.sent| && s.sent[b] <= s'.sent[b]
    ensures s'.sent[b] == s.sent[b] || (exists m :: Writes(s, a, b, m) && s'.sent[b] == s.sent[b] + [m])
  {
    hide Granted, Enabled, After, Writes;
    if a.CreateMailbox? {
      MailboxEnds(s, a);
    }
    SameSizes(s, a, s');
    if b < |s.boxes| {
      OnlyWriters(s, a, s', b);
    }
  }

  /** Only making a mailbox adds one. */
  lemma SameSizes(s: State, a: Action, s': State)
    requires Step(s, a, s')
    ensures |s.sent| == |s.boxes| == |s.received|
    ensures |s'.sent| == |s'.received| == |s'.boxes| == |s.boxes| + if a.CreateMailbox? then 1 else 0
  {
    hide Granted, Enabled, After, Writes, Reads, Starts;
    if a.CreateMailbox? {
      MailboxEnds(s, a);
    } else if s' != s {
      Acts(s, a, s');
      if a.WriteData? || a.WriteHandle? {
        var x, m :| Writes(s, a, x, m);
        WriterSends(s, a, x, m);
      } else if a.Read? || a.Resume? {
        var x :| Reads(s, a, x);
        ReaderReceives(s, a, x);
      } else if a.Start? {
        var x, h :| Starts(s, a, x, h);
        StarterStarts(s, a, x, h);
      } else {
        MinorSizes(s, a, s');
      }
    }
  }

  lemma MinorSizes(s: State, a: Action, s': State)
    requires Step(s, a, s') && Minor(a) && !a.CreateMailbox?
    ensures s'.boxes == s.boxes
  {
    hide Lightest, Earliest, Preempted, Spawned, Granted;
    if a.Preempt? {
      PreemptedIs(s, a.core, a.now, a.next);
    } else if a.Spawn? {
      SpawnedIs(Started(s, a.process), a.process, a.thread, a.now);
    }
  }

  /** Message `j` that was taken from mailbox `b` was taken by a step of a reader, as the first in the queue. */
  lemma {:induction false} EveryMessageRead(ss: seq<State>, actions: seq<Action>, i: nat, b: nat, j: nat)
    requires IsRun(ss, actions) && i < |ss| && b < |ss[i].received| && j < |ss[i].received[b]|
    requires b < |ss[0].received| ==> j >= |ss[0].received[b]|
    ensures exists k: nat :: k < i && TakesFirst(ss[k], actions[k], b, ss[i].received[b][j])
    decreases i
  {
    hide Sane, Enabled, After, TakesFirst;
    if i > 0 {
      var s, a, s' := ss[i - 1], actions[i - 1], ss[i];
      assert Step(s, a, s');
      ReceivedBefore(s, a, s', b);
      if j < |s.received[b]| {
        EveryMessageRead(ss, actions, i - 1, b, j);
        assert s.received[b][j] == s'.received[b][j];
        var k: nat :| k < i - 1 && TakesFirst(ss[k], actions[k], b, s.received[b][j]);
        assert k < i && TakesFirst(ss[k], actions[k], b, s'.received[b][j]);
      } else {
        assert TakesFirst(s, a, b, s'.received[b][j]);
      }
    }
  }

  ghost predicate TakesFirst(s: State, a: Action, b: nat, m: Message) {
    Reads(s, a, b) && b < |s.boxes| && s.boxes[b].queue != [] && s.boxes[b].queue[0] == m
  }

  lemma ReceivedBefore(s: State, a: Action, s': State, b: nat)
    requires Step(s, a, s') && b < |s'.received| && s'.received[b] != []
    ensures b < |s.received| && s.received[b] <= s'.received[b]
    ensures s'.received[b] == s.received[b] || exists m :: TakesFirst(s, a, b, m) && s'.received[b] == s.received[b] + [m]
  {
    hide Granted, Enabled, After, Reads;
    if a.CreateMailbox? {
      MailboxEnds(s, a);
    }
    SameSizes(s, a, s');
    if b < |s.boxes| {
      OnlyReaders(s, a, s', b);
      if s'.received[b] != s.received[b] {
        assert TakesFirst(s, a, b, s.boxes[b].queue[0]);
      }
    }
  }

  /** A thread in the middle of reading a mailbox began to when its process had a handle to read it. */
  lemma {:induction false} PendingBegan(ss: seq<State>, actions: seq<Action>, i: nat, t: nat, b: nat)
    requires IsRun(ss, actions) && i < |ss| && t in ss[i].threads && ss[i].threads[t].pending == Some(b)
    requires t in ss[0].threads ==> ss[0].threads[t].pending != Some(b)
    ensures exists k: nat :: k < i && BeginsRead(ss[k], actions[k], t, b)
    decreases i
  {
    hide Sane, Enabled, After, BeginsRead;
    if i > 0 {
      var s, a, s' := ss[i - 1], actions[i - 1], ss[i];
      assert Step(s, a, s');
      OnlyReadersWait(s, a, s', t, b);
      if s.threads[t].pending == Some(b) {
        PendingBegan(ss, actions, i - 1, t, b);
        var k: nat :| k < i - 1 && BeginsRead(ss[k], actions[k], t, b);
        assert k < i && BeginsRead(ss[k], actions[k], t, b);
      } else {
        assert BeginsRead(s, a, t, b) by { Began(s, a, t, b); }
      }
    }
  }

  ghost predicate BeginsRead(s: State, a: Action, t: nat, b: nat) {
    a.Read? && MayReadVia(s, a.core, a.via, b) && s.cores[a.core].current == Some(t)
  }

  lemma Began(s: State, a: Action, t: nat, b: nat)
    requires a.Read? && MayReadVia(s, a.core, a.via, b) && s.cores[a.core].current == Some(t)
    ensures BeginsRead(s, a, t, b)
  {
  }

  // ---------------------------------------------------------------------------------------
  // The two ends of a mailbox

  predicate SameWriteEnd(g: Grant, h: Grant) {
    g.write && h.write && g.target.ToBox? && g.target == h.target
  }

  /** A mailbox has one handle to write to it and one to read it, and they are two. */
  ghost predicate TwoEnds(s: State) {
    && (forall g, h :: g in s.grants && h in s.grants && SameWriteEnd(s.grants[g], s.grants[h]) ==> g == h)
    && (forall h :: h in s.grants && s.grants[h].target.ToBox? ==> (s.grants[h].read <==> !s.grants[h].write))
  }

  lemma OldTargets(s: State)
    requires Sane(s)
    ensures forall h :: h in s.grants && s.grants[h].target.ToBox? ==> s.grants[h].target.box < |s.boxes|
  {
    assert forall h :: h in s.grants ==> TargetOk(s, s.grants[h]);
  }

  lemma StepEnds(s: State, a: Action, s': State)
    requires Step(s, a, s') && TwoEnds(s)
    ensures TwoEnds(s')
  {
    hide Sane, Enabled, After;
    OldTargets(s);
    forall h | h in s.grants ensures h in s'.grants && s'.grants[h] == s.grants[h] {
      PermissionsStay(s, a, s', h);
    }
    if a.CreateMailbox? {
      MailboxEnds(s, a);
    } else if a.CreateProcess? || a.CreateObject? {
      ObjectHandles(s, a);
    } else {
      NoOtherHandles(s, a, s');
    }
  }

  lemma {:induction false} AlwaysEnds(ss: seq<State>, actions: seq<Action>, i: nat)
    requires IsRun(ss, actions) && i < |ss| && TwoEnds(ss[0])
    ensures TwoEnds(ss[i])
  {
    hide TwoEnds, Step;
    if i > 0 {
      AlwaysEnds(ss, actions, i - 1);
      assert Step(ss[i - 1], actions[i - 1], ss[i]);
      StepEnds(ss[i - 1], actions[i - 1], ss[i]);
    }
  }

  /** Process `p` may write to mailbox `b` by the handle under token `k`. */
  predicate WritesBy(s: State, p: nat, k: nat, b: nat) {
    p < |s.processes| && Lookup(s, p, k).Some? && Lookup(s, p, k).value.target == ToBox(b) && Lookup(s, p, k).value.write
  }

  /** In every state reachable from start-up, at most one process may write to a mailbox, by one token; and by
      that token it may not read it. */
  lemma SoleWriter(cores: nat, ss: seq<State>, actions: seq<Action>, i: nat, p: nat, k: nat, q: nat, j: nat, b: nat)
    requires cores > 0 && IsRun(ss, actions) && ss[0] == Boot(cores) && i < |ss|
    requires WritesBy(ss[i], p, k, b) && WritesBy(ss[i], q, j, b)
    ensures p == q && k == j && !Lookup(ss[i], p, k).value.read
  {
    hide Held, IsRun, Sane;
    var s := ss[i];
    AlwaysEnds(ss, actions, i);
    var place, spots := Reachable(cores, ss, actions, i);
    OneSpot(s, spots, s.processes[p].handles[k], InTable(p, k), InTable(q, j));
  }

  lemma OneSpot(s: State, spots: map<nat, Spot>, h: nat, x: Spot, y: Spot)
    requires Held(s, spots) && Has(s, h, x) && Has(s, h, y)
    ensures x == y
  {
  }
}
