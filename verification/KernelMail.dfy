/** Mailboxes that are read by one thread at a time. */
module KernelMail {
  import opened Basics
  import opened Kernel
  import opened KernelPlaces

  /** Thread `t` is in the middle of reading mailbox `b`. */
  predicate Engaged(s: State, t: nat, b: nat) {
    t in s.threads && s.threads[t].pending == Some(b)
  }

  /** The read that an action begins, if it does, is of a mailbox that nobody is in the middle of reading. */
  ghost predicate Alone(s: State, a: Action) {
    Sane(s) && Enabled(s, a) && a.Read? && Denial(s, a.core, a.via, ReadBox) == Ok ==>
      forall t :: !Engaged(s, t, BoxVia(s, a.core, a.via))
  }

  /** What was read so far and what is queued is what was written; at most one thread waits, one in the
      middle of reading, and only when nothing is queued. */
  ghost predicate BoxOk(s: State, b: nat)
    requires |s.sent| == |s.boxes| == |s.received| && b < |s.boxes|
  {
    && s.sent[b] == s.received[b] + s.boxes[b].queue
    && (s.boxes[b].waiting != [] ==>
          |s.boxes[b].waiting| == 1 && s.boxes[b].queue == [] && Engaged(s, s.boxes[b].waiting[0], b))
  }

  /** A thread in the middle of a read waits or has a message to find, and is the only one. */
  ghost predicate ReaderOk(s: State, t: nat, b: nat) {
    Engaged(s, t, b) ==>
      && b < |s.boxes| && (s.boxes[b].waiting == [t] || s.boxes[b].queue != [])
      && forall u :: Engaged(s, u, b) ==> u == t
  }

  ghost predicate MailOk(s: State) {
    && |s.sent| == |s.boxes| == |s.received|
    && (forall b: nat {:trigger BoxOk(s, b)} :: b < |s.boxes| ==> BoxOk(s, b))
    && (forall t, b {:trigger ReaderOk(s, t, b)} :: ReaderOk(s, t, b))
  }

  /** A woken reader finds a message when it goes on. */
  lemma ResumeFinds(s: State, a: Action, place: map<nat, Where>)
    requires Sane(s) && Enabled(s, a) && a.Resume? && MailOk(s) && Placed(s, place)
    ensures s.boxes[s.threads[Current(s, a.core)].pending.value].queue != []
    ensures After(s, a).1 == Ok
  {
    var t := Current(s, a.core);
    var b := s.threads[t].pending.value;
    assert ReaderOk(s, t, b);
    assert Is(s, t, Running(a.core));
    assert !Is(s, t, Waiting(b));
    assert t !in s.boxes[b].waiting && t in [t];
  }

  // ---------------------------------------------------------------------------------------
  // What calls do

  /** Calls that touch no mailbox and no continuation. */
  ghost predicate SameMail(s: State, s': State) {
    && s'.boxes == s.boxes && s'.sent == s.sent && s'.received == s.received
    && (forall t, b {:trigger Engaged(s', t, b)} :: Engaged(s', t, b) <==> Engaged(s, t, b))
  }

  lemma SameMailOk(s: State, s': State)
    requires MailOk(s) && SameMail(s, s')
    ensures MailOk(s')
  {
    forall b: nat | b < |s'.boxes| ensures BoxOk(s', b) {
      assert BoxOk(s, b);
      if s.boxes[b].waiting != [] {
        assert Engaged(s', s.boxes[b].waiting[0], b);
      }
    }
    forall t, b ensures ReaderOk(s', t, b) {
      assert ReaderOk(s, t, b);
    }
  }

  lemma PreemptedMail(s: State, c: nat, now: nat, next: nat)
    requires c < |s.cores| && (s.cores[c].current.Some? ==> Current(s, c) in s.threads)
    ensures SameMail(s, Preempted(s, c, now, next))
  {
  }

  lemma LaunchedMail(s: State, from: nat, bootstrap: nat, p: nat, token: nat, handle: nat, thread: nat, now: nat)
    requires from < |s.processes| && p < |s.processes| && |s.cores| > 0 && thread !in s.threads
    ensures SameMail(s, Launched(s, from, bootstrap, p, token, handle, thread, now))
    ensures SameMail(s, Spawned(Started(s, p), p, thread, now))
  {
    hide Lightest;
  }

  /** A reader with nothing to read waits, where nobody waited. */
  lemma ParkedMail(s: State, c: nat, now: nat, b: nat, next: nat)
    requires MailOk(s) && c < |s.cores| && s.cores[c].current.Some? && Current(s, c) in s.threads
    requires s.threads[Current(s, c)].pending.None? && b < |s.boxes| && s.boxes[b].queue == []
    requires forall t :: !Engaged(s, t, b)
    ensures MailOk(Parked(s, c, now, b, Some(b), next))
  {
    var t, s' := Current(s, c), Parked(s, c, now, b, Some(b), next);
    assert BoxOk(s, b);
    assert forall u, x {:trigger Engaged(s', u, x)} :: Engaged(s', u, x) <==> Engaged(s, u, x) || (u == t && x == b);
    forall x: nat | x < |s'.boxes| ensures BoxOk(s', x) {
      assert BoxOk(s, x);
      if s'.boxes[x].waiting != [] {
        assert Engaged(s', s'.boxes[x].waiting[0], x);
      }
    }
    forall u, x ensures ReaderOk(s', u, x) {
      assert ReaderOk(s, u, x);
    }
  }

  lemma ReceivedMail(s: State, t: nat, b: nat, token: nat)
    requires MailOk(s) && t in s.threads && s.threads[t].process < |s.processes|
    requires b < |s.boxes| && s.boxes[b].queue != [] && (s.threads[t].pending.None? || s.threads[t].pending == Some(b))
    requires forall u :: Engaged(s, u, b) ==> u == t
    ensures MailOk(Received(Continuing(s, t, None), t, b, token))
  {
    var s' := Received(Continuing(s, t, None), t, b, token);
    assert BoxOk(s, b);
    assert forall u, x {:trigger Engaged(s', u, x)} :: Engaged(s', u, x) <==> Engaged(s, u, x) && u != t;
    forall x: nat | x < |s'.boxes| ensures BoxOk(s', x) {
      assert BoxOk(s, x);
      if s'.boxes[x].waiting != [] {
        assert x != b && Engaged(s, s.boxes[x].waiting[0], x);
        assert Engaged(s', s'.boxes[x].waiting[0], x);
      }
    }
    forall u, x ensures ReaderOk(s', u, x) {
      assert ReaderOk(s, u, x);
    }
  }

  lemma SentMail(s: State, b: nat, message: Message)
    requires MailOk(s) && b < |s.boxes| && |s.cores| > 0
    ensures MailOk(Sent(s, b, message))
  {
    hide Lightest;
    var s' := Sent(s, b, message);
    assert BoxOk(s, b);
    assert forall u, x {:trigger Engaged(s', u, x)} :: Engaged(s', u, x) <==> Engaged(s, u, x);
    forall x: nat | x < |s'.boxes| ensures BoxOk(s', x) {
      assert BoxOk(s, x);
      if s'.boxes[x].waiting != [] {
        assert Engaged(s', s'.boxes[x].waiting[0], x);
      }
    }
    forall u, x ensures ReaderOk(s', u, x) {
      assert ReaderOk(s, u, x);
    }
  }

  lemma OpenedMail(s: State, p: nat, readToken: nat, reader: nat, writeToken: nat, writer: nat)
    requires MailOk(s) && p < |s.processes|
    ensures MailOk(Opened(s, p, readToken, reader, writeToken, writer))
  {
    var s' := Opened(s, p, readToken, reader, writeToken, writer);
    assert forall u, x {:trigger Engaged(s', u, x)} :: Engaged(s', u, x) <==> Engaged(s, u, x);
    forall x: nat | x < |s'.boxes| ensures BoxOk(s', x) {
      assert x < |s.boxes| ==> BoxOk(s, x);
      if s'.boxes[x].waiting != [] {
        assert Engaged(s', s'.boxes[x].waiting[0], x);
      }
    }
    forall u, x ensures ReaderOk(s', u, x) {
      assert ReaderOk(s, u, x);
    }
  }

  lemma QuietMail(s: State, a: Action, s': State)
    requires Step(s, a, s') && (a.Release? || a.CreateProcess? || a.CreateObject?)
    ensures SameMail(s, s')
  {
    hide Granted;
  }

  /** Every step that begins reading only where nobody is reading keeps mailboxes in order. */
  lemma StepMail(s: State, a: Action, s': State, place: map<nat, Where>)
    requires Step(s, a, s') && MailOk(s) && Placed(s, place) && Alone(s, a)
    ensures MailOk(s')
  {
    hide MailOk, Placed, Preempted, Parked, Sent, Received, Launched, Spawned, Earliest, Opened, Founded, NewHandle, SameMail,
         Denial, Refusal, Granted, Wakes, Fits, Started;
    if s' != s {
      match a
      case Preempt(c, now, next) =>
        PreemptedMail(s, c, now, next);
        SameMailOk(s, s');
      case Read(c, via, poll, now, next, token) =>
        var b := BoxVia(s, c, via);
        if s.boxes[b].queue != [] {
          var t := Current(s, c);
          ReceivedMail(s, t, b, token);
          assert Continuing(s, t, None) == s;
        } else {
          ParkedMail(s, c, now, b, next);
        }
      case Resume(c, now, next, token) =>
        ResumeFinds(s, a, place);
        var t := Current(s, c);
        PendingReader(s, t);
        ReceivedMail(s, t, s.threads[t].pending.value, token);
      case WriteData(c, via, value) => SentMail(s, BoxVia(s, c, via), Data(value));
      case WriteHandle(c, via, token) =>
        MayGive(s, c, token);
        var p := s.threads[Current(s, c)].process;
        UnregisteredMail(s, p, token);
        SameMailOk(s, Unregistered(s, p, token));
        SentMail(Unregistered(s, p, token), BoxVia(s, c, via), Carry(Handles(s, c)[token]));
      case Start(c, via, bootstrap, token, thread, now) =>
        MayGive(s, c, bootstrap);
        LaunchedMail(s, s.threads[Current(s, c)].process, bootstrap, ProcessVia(s, c, via), token, Handles(s, c)[bootstrap], thread, now);
        SameMailOk(s, s');
      case Spawn(c, p, thread, now) =>
        LaunchedMail(s, p, 0, p, 0, 0, thread, now);
        SameMailOk(s, s');
      case CreateMailbox(c, readToken, writeToken, reader, writer) =>
        OpenedMail(s, s.threads[Current(s, c)].process, readToken, reader, writeToken, writer);
      case _ =>
        QuietMail(s, a, s');
        SameMailOk(s, s');
    }
  }

  lemma PendingReader(s: State, t: nat)
    requires MailOk(s) && t in s.threads && s.threads[t].pending.Some?
    ensures forall u :: Engaged(s, u, s.threads[t].pending.value) ==> u == t
  {
    assert ReaderOk(s, t, s.threads[t].pending.value);
  }

  lemma UnregisteredMail(s: State, p: nat, token: nat)
    requires p < |s.processes|
    ensures SameMail(s, Unregistered(s, p, token))
  {
  }

  /** In every run in which no read begins while another of the same mailbox is under way, mailboxes are
      in order throughout: so a reader never waits while a message is queued, a woken reader finds one,
      and what was read is always the beginning, in order, of what was written. */
  lemma {:induction false} AlwaysMail(ss: seq<State>, actions: seq<Action>, i: nat, place: map<nat, Where>)
    requires IsRun(ss, actions) && i < |ss| && MailOk(ss[0]) && Placed(ss[0], place)
    requires forall k: nat :: k < |actions| ==> Alone(ss[k], actions[k])
    ensures MailOk(ss[i])
  {
    hide MailOk, Placed, Alone, Sane, Enabled, After;
    if i > 0 {
      AlwaysMail(ss, actions, i - 1, place);
      var at := AlwaysPlaced(ss, actions, i - 1, place);
      assert Step(ss[i - 1], actions[i - 1], ss[i]) && Alone(ss[i - 1], actions[i - 1]);
      StepMail(ss[i - 1], actions[i - 1], ss[i], at);
    }
  }

  lemma ReadInOrder(s: State, b: nat)
    requires MailOk(s) && b < |s.boxes|
    ensures s.received[b] <= s.sent[b]
    ensures s.boxes[b].waiting != [] ==> s.boxes[b].queue == [] && s.received[b] == s.sent[b]
  {
    assert BoxOk(s, b);
  }
}
