/** The handlers, as they update the state of the machine in place. */
module KernelCalls {
  import opened Basics
  import opened Kernel
  import opened KernelPlaces
  import opened KernelRuns
  import opened KernelObjects
  import opened AvlTree
  import opened Fifo

  /** What the first message of a mailbox gives its reader. */
  function First(box: Box, token: nat): Content
    requires box.queue != []
  {
    match box.queue[0]
    case Data(value) => Plain(value)
    case Carry(_) => Token(token)
  }

  lemma ResumeIs(s: State, c: nat, now: nat, next: nat, token: nat)
    requires Sane(s) && c < |s.cores| && s.cores[c].current.Some? && s.threads[Current(s, c)].pending.Some?
    requires CanRead(s, c, s.threads[Current(s, c)].pending.value, now, next, token)
    ensures var a, t := Resume(c, now, next, token), Current(s, c);
            var b := s.threads[t].pending.value;
            && Enabled(s, a)
            && After(s, a) == if s.boxes[b].queue != [] then (Received(Continuing(s, t, None), t, b, token), Ok)
                              else (Parked(s, c, now, b, None, next), Blocked)
  {
    hide Parked, Received, Granted, CanRead;
  }

  class Machine {
    const processAddress: nat -> bv64
    const handleAddress: nat -> bv64

    var cores: seq<Core>
    var mailboxes: seq<Mailbox>
    var tables: seq<HandleTable>
    var started: seq<bool>
    var threads: map<nat, Thread>
    var grants: map<nat, Grant>
    var clock: nat
    /** The threads whose links still lead somewhere. */
    var stale: set<nat>

    /** What the queues and tables hold, and the objects they consist of. */
    ghost var boxes: seq<Box>
    ghost var processes: seq<Process>
    ghost var queueParts: set<object>
    ghost var tableParts: set<object>
    ghost var sent: seq<seq<Message>>
    ghost var received: seq<seq<Message>>

    /** The machine at start-up. */
    constructor (processAddress: nat -> bv64, handleAddress: nat -> bv64, count: nat)
      requires count > 0
      ensures Snapshot() == Boot(count) && Valid() && Sturdy()
      ensures this.processAddress == processAddress && this.handleAddress == handleAddress
    {
      this.processAddress, this.handleAddress := processAddress, handleAddress;
      cores := Boot(count).cores;
      mailboxes, boxes, sent, received := [], [], [], [];
      threads, grants, clock, stale := map[0 := Thread(0, 0, None)], map[], 1, {};
      var table := new HandleTable();
      tables, started, processes := [table], [true], [Process(map[], true)];
      queueParts, tableParts := {}, {table, table.tree};
    }

    ghost function Snapshot(): State
      reads this
    {
      State(cores, boxes, processes, threads, grants, clock, stale, sent, received)
    }

    /** The queues hold the messages and threads, and no two have a part in common. */
    ghost predicate BoxesOk()
      reads this`mailboxes, this`boxes, this`queueParts, queueParts
    {
      && |boxes| == |mailboxes|
      && (forall i :: 0 <= i < |mailboxes| ==>
            && {mailboxes[i].messages, mailboxes[i].waiting} <= queueParts
            && mailboxes[i].MessageNodes() <= queueParts && mailboxes[i].WaitingNodes() <= queueParts
            && mailboxes[i].Valid() && mailboxes[i].Value() == boxes[i])
      && (forall i, j :: 0 <= i < j < |mailboxes| ==>
            && mailboxes[i].messages != mailboxes[j].messages && mailboxes[i].waiting != mailboxes[j].waiting
            && mailboxes[i].MessageNodes() !! mailboxes[j].MessageNodes()
            && mailboxes[i].WaitingNodes() !! mailboxes[j].WaitingNodes())
    }

    /** The trees file the handles, and no two have a part in common. */
    ghost predicate TablesOk()
      reads this`tables, this`processes, this`started, this`tableParts, tableParts
    {
      && |processes| == |tables| == |started|
      && (forall p :: 0 <= p < |tables| ==>
            && {tables[p], tables[p].tree} <= tableParts && tables[p].tree.Repr <= tableParts
            && tables[p].Valid() && tables[p].table == processes[p].handles && started[p] == processes[p].started)
      && (forall p, q :: 0 <= p < q < |tables| ==>
            tables[p] != tables[q] && tables[p].tree != tables[q].tree && tables[p].tree.Repr !! tables[q].tree.Repr)
    }

    ghost predicate Valid()
      reads this, queueParts, tableParts
    {
      BoxesOk() && TablesOk() && queueParts !! tableParts && this !in queueParts + tableParts
    }

    /** Every tree is balanced, so that no call reads a child that is not there. */
    ghost predicate Sturdy()
      requires TablesOk()
      reads this`tables, this`processes, this`started, this`tableParts, tableParts
    {
      forall p :: 0 <= p < |tables| ==> tables[p].tree.Valid()
    }

    // -------------------------------------------------------------------------------------
    // Handle tables

    /** What is known about table `p` and the others. */
    lemma TableHere(p: nat)
      requires TablesOk() && p < |tables|
      ensures |processes| == |tables| == |started|
      ensures {tables[p], tables[p].tree} <= tableParts && tables[p].tree.Repr <= tableParts
      ensures tables[p].Valid() && tables[p].table == processes[p].handles && started[p] == processes[p].started
      ensures forall q :: 0 <= q < |tables| && q != p ==>
                tables[q] != tables[p] && tables[q].tree != tables[p].tree && tables[q].tree.Repr !! tables[p].tree.Repr
    {
      hide HandleTable.Valid;
      forall q | 0 <= q < |tables| && q != p
        ensures tables[q] != tables[p] && tables[q].tree != tables[p].tree && tables[q].tree.Repr !! tables[p].tree.Repr
      {
        assert if q < p then tables[q] != tables[p] else tables[p] != tables[q];
      }
    }

    lemma SturdyHere(p: nat)
      requires TablesOk() && p < |tables|
      ensures Sturdy() ==> tables[p].tree.Valid()
    {
    }

    /** A change to one table does not concern the others. */
    twostate lemma TableChanged(p: nat)
      requires old(TablesOk()) && unchanged(this`tables) && unchanged(this`started) && p < |tables|
      requires tables[p].Valid() && fresh(tables[p].tree.Repr - old(tables[p].tree.Repr))
      requires tableParts == old(tableParts) + tables[p].tree.Repr
      requires processes == old(processes)[p := old(processes)[p].(handles := tables[p].table)]
      requires forall q :: 0 <= q < |tables| && q != p ==>
                 unchanged(tables[q]) && unchanged(tables[q].tree) && unchanged(tables[q].tree.Repr)
      ensures TablesOk()
      ensures old(Sturdy()) && tables[p].tree.Valid() ==> Sturdy()
    {
      hide HandleTable.Valid, AvlTree.Valid;
      forall q | 0 <= q < |tables|
        ensures tables[q].Valid() && {tables[q], tables[q].tree} <= tableParts && tables[q].tree.Repr <= tableParts
        ensures q != p && old(tables[q].tree.Valid()) ==> tables[q].tree.Valid()
      {
        assert q != p ==> old(tables[q].Valid() && {tables[q], tables[q].tree} <= tableParts && tables[q].tree.Repr <= tableParts);
      }
    }

    /** Files a handle under a token that is not in use. */
    method RegisterForToken(p: nat, handle: nat, readings: seq<bv64>) returns (token: nat, ok: bool)
      requires TablesOk() && this !in tableParts && p < |tables| && Advancing(readings) && |readings| > |processes[p].handles|
      modifies this`processes, this`tableParts, tableParts
      ensures token !in old(processes)[p].handles
      ensures Snapshot() == Registered(old(Snapshot()), p, token, handle)
      ensures ok ==> TablesOk() && fresh(tableParts - old(tableParts)) && this !in tableParts
      ensures old(tables[p].tree.Valid()) ==> ok && tables[p].tree.Valid()
      ensures forall q :: 0 <= q < |tables| && q != p ==> (tables[q].tree.Valid() <==> old(tables[q].tree.Valid()))
      ensures old(Sturdy()) ==> ok && Sturdy()
    {
      hide HandleTable.Valid, TablesOk, Sturdy, AvlTree.Valid, TokenAt, Advancing;
      TableHere(p);
      SturdyHere(p);
      token, ok := tables[p].Register(processAddress(p), handleAddress(handle), handle, readings);
      processes := processes[p := processes[p].(handles := processes[p].handles[token := handle])];
      tableParts := tableParts + tables[p].tree.Repr;
      if ok {
        TableChanged(p);
      }
    }

    method UnregisterToken(p: nat, token: nat) returns (ok: bool)
      requires TablesOk() && this !in tableParts && p < |tables| && token in processes[p].handles
      modifies this`processes, tableParts
      ensures Snapshot() == Unregistered(old(Snapshot()), p, token)
      ensures ok ==> TablesOk()
      ensures forall q :: 0 <= q < |tables| && q != p ==> (tables[q].tree.Valid() <==> old(tables[q].tree.Valid()))
      ensures old(tables[p].tree.Valid()) ==> ok && (tables[p].tree.Valid() <==> !Topples(old(tables[p].tree.tree), token))
      ensures old(Sturdy()) ==> ok && (Sturdy() <==> !Topples(old(tables[p].tree.tree), token))
    {
      hide HandleTable.Valid, TablesOk, Sturdy, AvlTree.Valid, Topples;
      TableHere(p);
      SturdyHere(p);
      ok := tables[p].Unregister(token);
      processes := processes[p := processes[p].(handles := processes[p].handles - {token})];
      if ok {
        assert tableParts == tableParts + tables[p].tree.Repr;
        TableChanged(p);
        SturdyHere(p);
      }
    }

    method GetHandle(p: nat, token: nat) returns (handle: Option<nat>)
      requires TablesOk() && p < |tables|
      ensures handle == if token in processes[p].handles then Some(processes[p].handles[token]) else None
    {
      hide HandleTable.Valid, TablesOk;
      TableHere(p);
      handle := tables[p].Get(token);
    }

    // -------------------------------------------------------------------------------------
    // The queues of mailboxes

    /** What is known about mailbox `b` and the others. */
    lemma BoxHere(b: nat)
      requires BoxesOk() && b < |mailboxes|
      ensures |boxes| == |mailboxes| && mailboxes[b].Valid() && mailboxes[b].Value() == boxes[b]
      ensures {mailboxes[b].messages, mailboxes[b].waiting} <= queueParts
      ensures mailboxes[b].MessageNodes() <= queueParts && mailboxes[b].WaitingNodes() <= queueParts
      ensures forall i :: 0 <= i < |mailboxes| && i != b ==>
                && mailboxes[i].messages != mailboxes[b].messages && mailboxes[i].waiting != mailboxes[b].waiting
                && mailboxes[i].MessageNodes() !! mailboxes[b].MessageNodes()
                && mailboxes[i].WaitingNodes() !! mailboxes[b].WaitingNodes()
    {
      hide Mailbox.Valid, Mailbox.Value;
      forall i | 0 <= i < |mailboxes| && i != b
        ensures mailboxes[i].messages != mailboxes[b].messages && mailboxes[i].waiting != mailboxes[b].waiting
        ensures mailboxes[i].MessageNodes() !! mailboxes[b].MessageNodes() && mailboxes[i].WaitingNodes() !! mailboxes[b].WaitingNodes()
      {
        assert if i < b then mailboxes[i].messages != mailboxes[b].messages else mailboxes[b].messages != mailboxes[i].messages;
      }
    }

    /** A mailbox none of whose parts changed. */
    twostate lemma SameBox(m: Mailbox)
      requires old(m.Valid()) && unchanged(m.messages) && unchanged(m.waiting)
      requires unchanged(old(m.MessageNodes())) && unchanged(old(m.WaitingNodes()))
      ensures m.Valid() && m.Value() == old(m.Value())
      ensures m.MessageNodes() == old(m.MessageNodes()) && m.WaitingNodes() == old(m.WaitingNodes())
    {
    }

    /** A change to one mailbox does not concern the others. */
    twostate lemma BoxChanged(b: nat)
      requires old(BoxesOk()) && unchanged(this`mailboxes) && b < |mailboxes|
      requires mailboxes[b].Valid() && boxes == old(boxes)[b := mailboxes[b].Value()]
      requires fresh(mailboxes[b].MessageNodes() - old(mailboxes[b].MessageNodes()))
      requires fresh(mailboxes[b].WaitingNodes() - old(mailboxes[b].WaitingNodes()))
      requires queueParts == old(queueParts) + mailboxes[b].MessageNodes() + mailboxes[b].WaitingNodes()
      requires forall i :: 0 <= i < |mailboxes| && i != b ==>
                 && unchanged(mailboxes[i].messages) && unchanged(mailboxes[i].waiting)
                 && unchanged(old(mailboxes[i].MessageNodes())) && unchanged(old(mailboxes[i].WaitingNodes()))
      ensures BoxesOk()
    {
      hide Mailbox.Valid, Mailbox.Value, Mailbox.MessageNodes, Mailbox.WaitingNodes;
      forall i | 0 <= i < |mailboxes| && i != b
        ensures mailboxes[i].Valid() && mailboxes[i].Value() == boxes[i]
        ensures mailboxes[i].MessageNodes() == old(mailboxes[i].MessageNodes())
        ensures mailboxes[i].WaitingNodes() == old(mailboxes[i].WaitingNodes())
      {
        SameBox(mailboxes[i]);
      }
    }

    method QueueMessage(b: nat, message: Message)
      requires BoxesOk() && this !in queueParts && b < |mailboxes|
      modifies this`boxes, this`queueParts, queueParts
      ensures BoxesOk() && boxes == old(boxes)[b := old(boxes)[b].(queue := old(boxes)[b].queue + [message])]
      ensures fresh(queueParts - old(queueParts)) && this !in queueParts
    {
      hide BoxesOk, Mailbox.Valid, Mailbox.Value;
      BoxHere(b);
      mailboxes[b].PushMessage(message);
      queueParts := queueParts + mailboxes[b].MessageNodes() + mailboxes[b].WaitingNodes();
      boxes := boxes[b := boxes[b].(queue := boxes[b].queue + [message])];
      BoxChanged(b);
    }

    method UnqueueMessage(b: nat) returns (message: Message)
      requires BoxesOk() && this !in queueParts && b < |mailboxes| && boxes[b].queue != [] && |received| == |boxes|
      modifies this`boxes, this`received, queueParts
      ensures BoxesOk() && message == old(boxes)[b].queue[0] && Snapshot() == Unqueued(old(Snapshot()), b)
    {
      hide BoxesOk, Mailbox.Valid, Mailbox.Value;
      BoxHere(b);
      message := mailboxes[b].PopMessage();
      received := received[b := received[b] + [message]];
      boxes := boxes[b := boxes[b].(queue := boxes[b].queue[1..])];
      assert queueParts == queueParts + mailboxes[b].MessageNodes() + mailboxes[b].WaitingNodes();
      BoxChanged(b);
    }

    method Enqueue(b: nat, t: nat)
      requires BoxesOk() && this !in queueParts && b < |mailboxes|
      modifies this`boxes, this`queueParts, queueParts
      ensures BoxesOk() && boxes == old(boxes)[b := old(boxes)[b].(waiting := old(boxes)[b].waiting + [t])]
      ensures fresh(queueParts - old(queueParts)) && this !in queueParts
    {
      hide BoxesOk, Mailbox.Valid, Mailbox.Value;
      BoxHere(b);
      mailboxes[b].PushWaiting(t);
      queueParts := queueParts + mailboxes[b].MessageNodes() + mailboxes[b].WaitingNodes();
      boxes := boxes[b := boxes[b].(waiting := boxes[b].waiting + [t])];
      BoxChanged(b);
    }

    /** The first thread that waits, if any, leaves its queue. */
    method Dequeue(b: nat) returns (thread: Option<nat>)
      requires BoxesOk() && this !in queueParts && b < |mailboxes|
      modifies this`boxes, this`stale, queueParts
      ensures BoxesOk()
      ensures if old(boxes)[b].waiting == [] then thread == None && Snapshot() == old(Snapshot())
              else thread == Some(old(boxes)[b].waiting[0]) && Snapshot() == Unwaited(old(Snapshot()), b)
    {
      hide BoxesOk, Mailbox.Valid, Mailbox.Value;
      BoxHere(b);
      var linked;
      thread, linked := mailboxes[b].PopWaiting();
      if linked {
        stale := stale + {thread.value};
      }
      if boxes[b].waiting != [] {
        boxes := boxes[b := boxes[b].(waiting := boxes[b].waiting[1..])];
      }
      assert queueParts == queueParts + mailboxes[b].MessageNodes() + mailboxes[b].WaitingNodes();
      BoxChanged(b);
    }

    method NoMessage(b: nat) returns (empty: bool)
      requires BoxesOk() && b < |mailboxes|
      ensures empty <==> boxes[b].queue == []
    {
      hide BoxesOk, Mailbox.Valid, Mailbox.Value;
      BoxHere(b);
      empty := mailboxes[b].Empty();
    }

    // -------------------------------------------------------------------------------------
    // Scheduling

    /** Looks for the first core with the lowest load. */
    method LowestLoad() returns (lowest: nat)
      requires |cores| > 0
      ensures lowest == Lightest(cores, |cores|)
    {
      var lowestLoad := |cores[0].ready| * 100;
      lowest := 0;
      var child := 1;
      while child < |cores|
        invariant 1 <= child <= |cores| && lowest == Lightest(cores, child) && lowestLoad == |cores[lowest].ready| * 100
      {
        var load := |cores[child].ready| * 100;
        if load < lowestLoad {
          lowest, lowestLoad := child, load;
        }
        child := child + 1;
      }
    }

    /** Makes a thread ready there. */
    method Schedule(t: nat)
      requires |cores| > 0 && forall c: nat :: c < |cores| ==> cores[c].current != Some(t)
      modifies this`cores, this`stale
      ensures Snapshot() == Place(old(Snapshot()), t)
    {
      hide Lightest;
      var lowest := LowestLoad();
      if cores[lowest].ready != {} {
        stale := stale - {t};
      }
      cores := cores[lowest := cores[lowest].(ready := cores[lowest].ready + {t})];
    }

    /** Puts the current thread, if any, back among the ready, and takes the one the heap gives. */
    method Reschedule(c: nat, now: nat, next: nat)
      requires c < |cores| && (cores[c].current.Some? ==> cores[c].current.value in threads)
      requires Earliest(if cores[c].current.Some? then Yield(Snapshot(), c, now) else Snapshot(), c, next)
      modifies this`cores, this`threads, this`clock, this`stale
      ensures Snapshot() == Preempted(old(Snapshot()), c, now, next)
    {
      if cores[c].current.Some? {
        var t := cores[c].current.value;
        threads := threads[t := threads[t].(stamp := now)];
        clock := now + 1;
        if cores[c].ready != {} {
          stale := stale - {t};
        }
        cores := cores[c := Core(None, cores[c].ready + {t})];
      }
      if |cores[c].ready| > 0 {
        if |cores[c].ready| >= 2 {
          stale := stale + {next};
        }
        cores := cores[c := Core(Some(next), cores[c].ready - {next})];
      }
    }

    /** Takes the current thread off its core. */
    method Deschedule(c: nat, now: nat, next: nat) returns (t: nat)
      requires c < |cores| && cores[c].current.Some? && cores[c].current.value in threads
      requires Earliest(Stamped(Snapshot().(cores := cores[c := cores[c].(current := None)]), cores[c].current.value, now), c, next)
      modifies this`cores, this`threads, this`clock, this`stale
      ensures t == old(cores)[c].current.value
      ensures Snapshot() == Dispatch(Stamped(old(Snapshot()).(cores := old(cores)[c := old(cores)[c].(current := None)]), t, now), c, next)
    {
      t := cores[c].current.value;
      cores := cores[c := cores[c].(current := None)];
      threads := threads[t := threads[t].(stamp := now)];
      clock := now + 1;
      Reschedule(c, now, next);
    }

    // -------------------------------------------------------------------------------------
    // Mailbox calls

    lemma SaneHere(c: nat)
      requires Sane(Snapshot()) && c < |cores| && cores[c].current.Some?
      ensures cores[c].current.value in threads && threads[cores[c].current.value].process < |processes|
      ensures |received| == |boxes| == |sent| && |cores| > 0
      ensures threads[cores[c].current.value].pending.Some? ==> threads[cores[c].current.value].pending.value < |boxes|
      ensures Granted(Snapshot())
    {
    }

    lemma Sizes()
      requires Valid()
      ensures |boxes| == |mailboxes| && |processes| == |tables| == |started|
    {
    }

    /** The checks that come before the handlers. */
    method Check(c: nat, via: nat, use: Use) returns (denial: Result, target: Target)
      requires Valid() && Sane(Snapshot()) && Runs(Snapshot(), c)
      ensures denial == Denial(Snapshot(), c, via, use)
      ensures var handles := Handles(Snapshot(), c);
              && (denial == InvalidToken <==> via !in handles)
              && (via in handles ==> handles[via] in grants)
              && (via in handles ==>
                    var g := grants[handles[via]];
                    var fitting := if use.StartProcess? then g.target.ToProcess? else g.target.ToBox?;
                    && (denial == WrongType <==> !fitting)
                    && (denial == NotAllowed <==> fitting && !(if use.ReadBox? then g.read else g.write)))
              && denial in {Ok, InvalidToken, WrongType, NotAllowed}
      ensures denial == Ok ==> GrantOf(Snapshot(), c, via).Some? && target == GrantOf(Snapshot(), c, via).value.target
    {
      hide BoxesOk, TablesOk, Sane;
      SaneHere(c);
      Sizes();
      var handle := GetHandle(threads[cores[c].current.value].process, via);
      if handle.None? {
        return InvalidToken, ToOther;
      }
      var grant := grants[handle.value];
      target := grant.target;
      if (if use.StartProcess? then !target.ToProcess? else !target.ToBox?) {
        return WrongType, target;
      }
      if (if use.ReadBox? then !grant.read else !grant.write) {
        return NotAllowed, target;
      }
      return Ok, target;
    }

    /** The thread comes to wait; it will go on with `pending` when it runs again. */
    method Wait(c: nat, b: nat, pending: Option<nat>, now: nat, next: nat)
      requires Valid() && c < |cores| && cores[c].current.Some? && cores[c].current.value in threads && b < |mailboxes| == |boxes|
      requires Earliest(Park(Snapshot(), c, now, b), c, next)
      modifies this`cores, this`threads, this`clock, this`stale, this`boxes, this`queueParts, queueParts
      ensures Valid() && Snapshot() == Parked(old(Snapshot()), c, now, b, pending, next)
      ensures fresh(queueParts - old(queueParts))
    {
      hide BoxesOk, TablesOk, Earliest, Parked, Park, Dispatch, Stamped;
      ghost var s := Snapshot();
      EarlyEither(s, c, now, b, next);
      ParkedOtherwise(s, c, now, b, pending, next);
      var t := Deschedule(c, now, next);
      Enqueue(b, t);
      threads := threads[t := threads[t].(pending := pending)];
    }

    method TakeMessage(t: nat, b: nat, readings: seq<bv64>) returns (ghost token: nat, ok: bool, content: Content)
      requires Valid() && t in threads && threads[t].process < |tables| == |processes| && b < |mailboxes| == |boxes| && boxes[b].queue != []
      requires |received| == |boxes| && Advancing(readings) && |readings| > |processes[threads[t].process].handles|
      modifies this`boxes, this`received, this`processes, this`tableParts, queueParts, tableParts
      ensures token !in old(processes)[threads[t].process].handles || !old(boxes)[b].queue[0].Carry?
      ensures Snapshot() == Received(old(Snapshot()), t, b, token)
      ensures content == First(old(boxes)[b], token)
      ensures ok ==> Valid() && fresh(tableParts - old(tableParts))
      ensures old(Sturdy()) ==> ok && Sturdy()
    {
      hide BoxesOk, TablesOk, Sturdy, Advancing, AvlTree.Valid;
      var message := UnqueueMessage(b);
      token, ok := 0, true;
      match message {
        case Carry(handle) =>
          var found;
          found, ok := RegisterForToken(threads[t].process, handle, readings);
          token, content := found, Token(found);
        case Data(value) =>
          content := Plain(value);
      }
    }

    /** The read call. */
    method MailboxRead(c: nat, via: nat, poll: bool, now: nat, next: nat, readings: seq<bv64>)
      returns (r: Result, ok: bool, ghost token: nat, content: Option<Content>)
      requires Valid() && Sane(Snapshot()) && Runs(Snapshot(), c)
      requires Denial(Snapshot(), c, via, ReadBox) == Ok && boxes[BoxVia(Snapshot(), c, via)].queue == [] && !poll ==>
                 Later(Snapshot(), now) && Earliest(Park(Snapshot(), c, now, BoxVia(Snapshot(), c, via)), c, next)
      requires Advancing(readings) && |readings| > |Handles(Snapshot(), c)|
      modifies this, queueParts, tableParts
      ensures Enabled(old(Snapshot()), Read(c, via, poll, now, next, token))
      ensures (Snapshot(), r) == After(old(Snapshot()), Read(c, via, poll, now, next, token))
      ensures content == if r == Ok then Some(First(old(boxes)[old(BoxVia(Snapshot(), c, via))], token)) else None
      ensures ok ==> Valid() && fresh(queueParts - old(queueParts)) && fresh(tableParts - old(tableParts))
      ensures old(Sturdy()) ==> ok && Sturdy()
    {
      hide Sane, Parked, Received, Earliest, Park, BoxesOk, TablesOk, Sturdy, Advancing, Granted;
      SaneHere(c);
      Sizes();
      token := 0;
      var denial, target := Check(c, via, ReadBox);
      if denial != Ok {
        return denial, true, token, None;
      }
      var b := target.box;
      var empty := NoMessage(b);
      if empty {
        if poll {
          return NotReady, true, token, None;
        }
        Wait(c, b, Some(b), now, next);
        return Blocked, true, token, None;
      }
      var first;
      token, ok, first := TakeMessage(cores[c].current.value, b, readings);
      return Ok, ok, token, Some(first);
    }

    /** The current thread goes on with a read that it was in the middle of. Its continuation is gone
        afterwards, even if it has to wait again. */
    method InvokeContinuation(c: nat, now: nat, next: nat, readings: seq<bv64>)
      returns (r: Result, ok: bool, ghost token: nat, content: Option<Content>)
      requires Valid() && Sane(Snapshot()) && c < |cores| && cores[c].current.Some?
      requires threads[cores[c].current.value].pending.Some?
      requires var b := threads[cores[c].current.value].pending.value;
               boxes[b].queue == [] ==> Later(Snapshot(), now) && Earliest(Park(Snapshot(), c, now, b), c, next)
      requires Advancing(readings) && |readings| > |processes[threads[cores[c].current.value].process].handles|
      modifies this, queueParts, tableParts
      ensures Enabled(old(Snapshot()), Resume(c, now, next, token))
      ensures (Snapshot(), r) == After(old(Snapshot()), Resume(c, now, next, token))
      ensures content == if r == Ok then Some(First(old(boxes)[old(threads[cores[c].current.value].pending.value)], token)) else None
      ensures ok ==> Valid() && fresh(queueParts - old(queueParts)) && fresh(tableParts - old(tableParts))
      ensures old(Sturdy()) ==> ok && Sturdy()
    {
      hide Sane, Parked, Received, Earliest, Park, BoxesOk, TablesOk, Sturdy, Advancing, Granted, Enabled, After;
      SaneHere(c);
      Sizes();
      ghost var s := Snapshot();
      var t := cores[c].current.value;
      var b := threads[t].pending.value;
      token := 0;
      var empty := NoMessage(b);
      if empty {
        ResumeIs(s, c, now, next, token);
        Wait(c, b, None, now, next);
        return Blocked, true, token, None;
      }
      threads := threads[t := threads[t].(pending := None)];
      var first;
      token, ok, first := TakeMessage(t, b, readings);
      ResumeIs(s, c, now, next, token);
      return Ok, ok, token, Some(first);
    }

    /** Queues a message, and wakes the first thread that waits for one. Not `fits`, if that has links
        left over and would be alone in the heap. */
    method Send(b: nat, message: Message) returns (fits: bool)
      requires Valid() && b < |mailboxes| == |boxes| == |sent| && |cores| > 0
      requires forall c: nat, t :: c < |cores| && t in boxes[b].waiting ==> cores[c].current != Some(t)
      modifies this`boxes, this`sent, this`cores, this`stale, this`queueParts, queueParts
      ensures fits <==> Wakes(old(Snapshot()), b)
      ensures fits ==> Valid() && Snapshot() == Sent(old(Snapshot()), b, message)
      ensures fresh(queueParts - old(queueParts))
    {
      hide BoxesOk, TablesOk, Lightest;
      QueueMessage(b, message);
      sent := sent[b := sent[b] + [message]];
      assert Snapshot() == Queued(old(Snapshot()), b, message);
      QueuedWakes(old(Snapshot()), b, message);
      hide Queued, Woken, Wakes;
      fits := WakeFirst(b);
    }

    /** Wakes the first thread that waits at a mailbox, if any. */
    method WakeFirst(b: nat) returns (fits: bool)
      requires Valid() && b < |mailboxes| == |boxes| && |cores| > 0
      requires forall c: nat, t :: c < |cores| && t in boxes[b].waiting ==> cores[c].current != Some(t)
      modifies this`boxes, this`cores, this`stale, queueParts
      ensures fits <==> Wakes(old(Snapshot()), b)
      ensures fits ==> Valid() && Snapshot() == Woken(old(Snapshot()), b)
    {
      hide BoxesOk, TablesOk, Lightest;
      var thread := Dequeue(b);
      if thread.Some? {
        var lowest := LowestLoad();
        if cores[lowest].ready == {} && thread.value in stale {
          return false;
        }
        Schedule(thread.value);
      }
      return true;
    }

    /** The write call, for plain data. */
    method MailboxWriteData(c: nat, via: nat, value: nat) returns (r: Result, fits: bool)
      requires Valid() && Sane(Snapshot()) && Runs(Snapshot(), c) && Apart()
      modifies this, queueParts
      ensures fits <==> Enabled(old(Snapshot()), WriteData(c, via, value))
      ensures fits ==> (Snapshot(), r) == After(old(Snapshot()), WriteData(c, via, value))
      ensures fits ==> Valid() && fresh(queueParts - old(queueParts)) && tableParts == old(tableParts)
      ensures fits && old(Sturdy()) ==> Sturdy()
    {
      hide Sane, Sent, BoxesOk, TablesOk, Sturdy, Granted, Wakes;
      SaneHere(c);
      Sizes();
      var denial, target := Check(c, via, WriteBox);
      if denial != Ok {
        return denial, true;
      }
      assert target.box == BoxVia(Snapshot(), c, via);
      fits := Send(target.box, Data(value));
      return Ok, fits;
    }

    /** No thread that waits is current. */
    ghost predicate Apart()
      reads this
    {
      forall c: nat, b: nat, t :: c < |cores| && b < |boxes| && t in boxes[b].waiting ==> cores[c].current != Some(t)
    }

    /** The write call, for a handle. */
    method MailboxWriteHandle(c: nat, via: nat, token: nat) returns (r: Result, ok: bool, fits: bool)
      requires Valid() && Sane(Snapshot()) && Runs(Snapshot(), c) && Apart()
      modifies this, queueParts, tableParts
      ensures ok ==> (fits <==> Enabled(old(Snapshot()), WriteHandle(c, via, token)))
      ensures ok && fits ==> (Snapshot(), r) == After(old(Snapshot()), WriteHandle(c, via, token))
      ensures ok && fits ==> Valid() && fresh(queueParts - old(queueParts)) && tableParts == old(tableParts)
      ensures old(Sturdy()) ==> ok && (fits ==> (Sturdy() <==> !old(Falls(Gives(Snapshot(), c, via, token)))))
    {
      hide Sane, Sent, BoxesOk, TablesOk, Sturdy, Granted, Wakes, Topples, Falls, AvlTree.Valid;
      SaneHere(c);
      Sizes();
      var denial, target := Check(c, via, WriteBox);
      if denial != Ok {
        NothingFalls();
        return denial, true, true;
      }
      var p := threads[cores[c].current.value].process;
      var refusal, handle := MayTransfer(c, token);
      if refusal != Ok {
        NothingFalls();
        return refusal, true, true;
      }
      FallsHere(p, token);
      ok := UnregisterToken(p, token);
      if !ok {
        return Ok, false, true;
      }
      assert target.box == old(BoxVia(Snapshot(), c, via));
      SameWake(old(Snapshot()), Snapshot(), target.box);
      fits := Send(target.box, Carry(handle));
      return Ok, true, fits;
    }

    /** Dropping the token leaves its tree unbalanced. */
    ghost predicate Falls(drop: Option<(nat, nat)>)
      reads this`tables, this`tableParts, tableParts
    {
      && drop.Some? && drop.value.0 < |tables| && {tables[drop.value.0], tables[drop.value.0].tree} <= tableParts
      && Topples(tables[drop.value.0].tree.tree, drop.value.1)
    }

    lemma NothingFalls()
      ensures !Falls(None)
    {
    }

    lemma FallsHere(p: nat, token: nat)
      requires TablesOk() && p < |tables|
      ensures Falls(Some((p, token))) <==> Topples(tables[p].tree.tree, token)
    {
    }

    /** Whether the current process may give a handle away. */
    method MayTransfer(c: nat, token: nat) returns (refusal: Result, handle: nat)
      requires Valid() && Sane(Snapshot()) && Runs(Snapshot(), c)
      ensures refusal == Refusal(Snapshot(), c, token)
      ensures refusal == Ok ==> token in Handles(Snapshot(), c) && handle == Handles(Snapshot(), c)[token]
    {
      hide BoxesOk, TablesOk, Sane;
      SaneHere(c);
      Sizes();
      var found := GetHandle(threads[cores[c].current.value].process, token);
      if found.None? {
        return InvalidToken, 0;
      }
      if !grants[found.value].transfer {
        return NotAllowed, 0;
      }
      return Ok, found.value;
    }

    lemma PlacedApart(place: map<nat, Where>)
      requires Placed(Snapshot(), place)
      ensures Apart()
    {
      forall c: nat, b: nat, t | c < |cores| && b < |boxes| && t in boxes[b].waiting
        ensures cores[c].current != Some(t)
      {
        assert Is(Snapshot(), t, Waiting(b));
        assert !Is(Snapshot(), t, Running(c));
      }
    }

    // -------------------------------------------------------------------------------------
    // Processes

    /** The release call; token zero is accepted and ignored. */
    method TokenRelease(c: nat, token: nat) returns (r: Result, ok: bool)
      requires Valid() && Sane(Snapshot()) && Enabled(Snapshot(), Release(c, token))
      modifies this`processes, tableParts
      ensures ok ==> (Snapshot(), r) == After(old(Snapshot()), Release(c, token)) && Valid()
      ensures old(Sturdy()) ==> ok && (Sturdy() <==> !old(Falls(Releases(Snapshot(), c, token))))
    {
      hide Sane, BoxesOk, TablesOk, Sturdy, Granted, Topples, Falls, AvlTree.Valid;
      SaneHere(c);
      Sizes();
      if token == 0 {
        NothingFalls();
        return Ok, true;
      }
      FallsHere(threads[cores[c].current.value].process, token);
      ok := UnregisterToken(threads[cores[c].current.value].process, token);
      return Ok, ok;
    }

    /** Marks a process as started. */
    method MarkStarted(p: nat)
      requires TablesOk() && p < |tables|
      modifies this`started, this`processes
      ensures TablesOk() && Snapshot() == Started(old(Snapshot()), p)
      ensures Sturdy() <==> old(Sturdy())
    {
      hide HandleTable.Valid, AvlTree.Valid;
      started := started[p := true];
      processes := processes[p := processes[p].(started := true)];
    }

    /** Marks a process as started, and moves a handle to it. */
    method Hand(from: nat, bootstrap: nat, p: nat, handle: nat, readings: seq<bv64>) returns (token: nat, ok: bool)
      requires TablesOk() && this !in tableParts && from < |tables| == |processes| && bootstrap in processes[from].handles && p < |tables|
      requires Advancing(readings) && |readings| > |processes[p].handles|
      modifies this`started, this`processes, this`tableParts, tableParts
      ensures ok && token in old(processes)[p].handles ==> p == from && token == bootstrap
      ensures ok ==> Snapshot() == Registered(Unregistered(Started(old(Snapshot()), p), from, bootstrap), p, token, handle)
      ensures ok ==> TablesOk() && fresh(tableParts - old(tableParts)) && this !in tableParts
      ensures old(Sturdy()) && p != from ==> ok && (Sturdy() <==> !Topples(old(tables[from].tree.tree), bootstrap))
      ensures old(Sturdy()) && !Topples(old(tables[from].tree.tree), bootstrap) ==> ok && Sturdy()
    {
      hide TablesOk, Sturdy, Advancing, Topples, AvlTree.Valid;
      ghost var handles := processes[p].handles;
      MarkStarted(p);
      SturdyHere(p);
      SturdyHere(from);
      token := 0;
      ok := UnregisterToken(from, bootstrap);
      if !ok {
        return;
      }
      SmallerSet(processes[p].handles.Keys, handles.Keys);
      token, ok := RegisterForToken(p, handle, readings);
      if ok {
        SturdyHere(from);
      }
    }

    /** Moves a handle to a process, and gives it a thread. */
    method Launch(from: nat, bootstrap: nat, p: nat, handle: nat, thread: nat, now: nat, readings: seq<bv64>)
      returns (token: nat, ok: bool)
      requires Valid() && from < |tables| == |processes| && bootstrap in processes[from].handles && p < |tables|
      requires |cores| > 0 && forall c: nat :: c < |cores| ==> cores[c].current != Some(thread)
      requires Advancing(readings) && |readings| > |processes[p].handles|
      modifies this, tableParts
      ensures ok && token in old(processes)[p].handles ==> p == from && token == bootstrap
      ensures ok ==> Snapshot() == Launched(old(Snapshot()), from, bootstrap, p, token, handle, thread, now)
      ensures ok ==> Valid() && fresh(tableParts - old(tableParts)) && queueParts == old(queueParts)
      ensures old(Sturdy()) && p != from ==> ok && (Sturdy() <==> !Topples(old(tables[from].tree.tree), bootstrap))
      ensures old(Sturdy()) && !Topples(old(tables[from].tree.tree), bootstrap) ==> ok && Sturdy()
    {
      hide BoxesOk, TablesOk, Sturdy, Advancing, Spawned, Topples, AvlTree.Valid;
      token, ok := Hand(from, bootstrap, p, handle, readings);
      if ok {
        AddThread(p, thread, now);
      }
    }

    /** The checks that come before a process is started, and the process and handle if they pass. */
    method MayStart(c: nat, via: nat, bootstrap: nat) returns (r: Result, p: nat, handle: nat)
      requires Valid() && Sane(Snapshot()) && Runs(Snapshot(), c)
      ensures r == StartRefusal(Snapshot(), c, via, bootstrap)
      ensures r == Ok ==>
                && p == ProcessVia(Snapshot(), c, via) < |tables| && bootstrap in Handles(Snapshot(), c)
                && handle == Handles(Snapshot(), c)[bootstrap]
    {
      hide Sane, BoxesOk, TablesOk, Granted;
      SaneHere(c);
      Sizes();
      var target;
      r, target := Check(c, via, StartProcess);
      p, handle := 0, 0;
      if r != Ok {
        return;
      }
      r, handle := MayTransfer(c, bootstrap);
      if r != Ok {
        return;
      }
      p := target.process;
      assert p == ProcessVia(Snapshot(), c, via);
      var before := HasStarted(p);
      if before {
        r := InvalidArguments;
      }
    }

    /** The call that starts a process: it gets a handle from the caller, and a thread. */
    method ProcessStart(c: nat, via: nat, bootstrap: nat, thread: nat, now: nat, readings: seq<bv64>)
      returns (r: Result, ok: bool, ghost token: nat)
      requires Valid() && Sane(Snapshot()) && Runs(Snapshot(), c) && Later(Snapshot(), now) && thread !in threads
      requires ReadsEnough(Snapshot(), c, via, readings)
      modifies this, tableParts
      ensures ok ==> Enabled(old(Snapshot()), Start(c, via, bootstrap, token, thread, now))
      ensures ok ==> (Snapshot(), r) == After(old(Snapshot()), Start(c, via, bootstrap, token, thread, now))
      ensures ok ==> Valid() && fresh(tableParts - old(tableParts)) && queueParts == old(queueParts)
      ensures old(Sturdy()) ==>
                var falls := old(Falls(Hands(Snapshot(), c, via, bootstrap)));
                && (!old(StartsItself(Snapshot(), c, via)) ==> ok && (Sturdy() <==> !falls))
                && (!falls ==> ok && Sturdy())
    {
      hide Sane, BoxesOk, TablesOk, Sturdy, Advancing, Granted, Launched, Topples, Falls, AvlTree.Valid,
           Enabled, After, Denial, Refusal, GrantOf, StartRefusal, Hands, StartsItself;
      ghost var s := Snapshot();
      SaneHere(c);
      Sizes();
      NothingFalls();
      StartParts(s, c, via, bootstrap);
      token := 0;
      var p, handle;
      r, p, handle := MayStart(c, via, bootstrap);
      if r != Ok {
        StartRefused(s, c, via, bootstrap, thread, now);
        return r, true, token;
      }
      NotCurrentYet(thread);
      FallsHere(threads[cores[c].current.value].process, bootstrap);
      var found;
      found, ok := Launch(threads[cores[c].current.value].process, bootstrap, p, handle, thread, now, readings);
      token := found;
      if ok {
        StartDone(s, c, via, bootstrap, token, thread, now);
      }
    }

    lemma NotCurrentYet(thread: nat)
      requires Sane(Snapshot()) && thread !in threads
      ensures forall c: nat :: c < |cores| ==> cores[c].current != Some(thread)
    {
    }

    method HasStarted(p: nat) returns (yes: bool)
      requires TablesOk() && p < |tables| == |processes|
      ensures yes == processes[p].started
    {
      hide HandleTable.Valid;
      yes := started[p];
    }

    /** A new thread of a process, made ready. */
    method AddThread(p: nat, thread: nat, now: nat)
      requires |cores| > 0 && forall c: nat :: c < |cores| ==> cores[c].current != Some(thread)
      modifies this`threads, this`clock, this`stale, this`cores
      ensures Snapshot() == Spawned(old(Snapshot()), p, thread, now)
    {
      hide Lightest;
      threads := threads[thread := Thread(p, now, None)];
      clock := now + 1;
      stale := stale - {thread};
      Schedule(thread);
    }

    /** The kernel gives a process another thread. */
    method CreateThread(c: nat, p: nat, thread: nat, now: nat)
      requires Valid() && Sane(Snapshot()) && Enabled(Snapshot(), Spawn(c, p, thread, now))
      modifies this`started, this`processes, this`threads, this`clock, this`stale, this`cores
      ensures Snapshot() == After(old(Snapshot()), Spawn(c, p, thread, now)).0 && Valid()
      ensures Sturdy() <==> old(Sturdy())
    {
      hide Sane, BoxesOk, TablesOk, Spawned, Sturdy;
      SaneHere(c);
      Sizes();
      NotCurrentYet(thread);
      MarkStarted(p);
      AddThread(p, thread, now);
    }

    /** A new mailbox, with a handle to read and one to write in process `p`. */
    method Open(p: nat, reader: nat, writer: nat, readings: seq<bv64>, more: seq<bv64>)
      returns (readToken: nat, writeToken: nat, ok: bool)
      requires Valid() && p < |tables| == |processes| && |mailboxes| == |boxes|
      requires Advancing(readings) && |readings| > |processes[p].handles|
      requires Advancing(more) && |more| > |processes[p].handles| + 1
      modifies this, tableParts
      ensures ok ==>
                && readToken !in old(processes)[p].handles && writeToken !in old(processes)[p].handles && readToken != writeToken
                && Snapshot() == Opened(old(Snapshot()), p, readToken, reader, writeToken, writer)
                && Valid() && fresh(queueParts - old(queueParts)) && fresh(tableParts - old(tableParts))
      ensures old(Sturdy()) ==> ok && Sturdy()
    {
      hide BoxesOk, TablesOk, Sturdy, Advancing, Registered, NewBox, AvlTree.Valid;
      ghost var s := Snapshot();
      NewBoxKeeps(s);
      var b := |mailboxes|;
      AddMailbox();
      readToken, ok := AddHandle(p, reader, Reading(b), readings);
      writeToken := 0;
      if !ok {
        return;
      }
      RegisteredKeeps(NewBox(s).(grants := NewBox(s).grants[reader := Reading(b)]), p, readToken, reader);
      OneMore(s.processes[p].handles, readToken, reader);
      writeToken, ok := AddHandle(p, writer, Writing(b), more);
    }

    /** A new handle in process `p`. */
    method AddHandle(p: nat, handle: nat, grant: Grant, readings: seq<bv64>) returns (token: nat, ok: bool)
      requires Valid() && p < |tables| == |processes| && Advancing(readings) && |readings| > |processes[p].handles|
      modifies this`grants, this`processes, this`tableParts, tableParts
      ensures token !in old(processes)[p].handles && Snapshot() == NewHandle(old(Snapshot()), p, token, handle, grant)
      ensures ok ==> Valid() && fresh(tableParts - old(tableParts))
      ensures old(Sturdy()) ==> ok && Sturdy()
    {
      hide BoxesOk, TablesOk, Sturdy, Advancing, AvlTree.Valid;
      grants := grants[handle := grant];
      token, ok := RegisterForToken(p, handle, readings);
    }

    /** The call that makes a mailbox, with a handle to read and one to write. */
    method MailboxCreate(c: nat, reader: nat, writer: nat, readings: seq<bv64>, more: seq<bv64>)
      returns (readToken: nat, writeToken: nat, ok: bool)
      requires Valid() && Sane(Snapshot()) && Runs(Snapshot(), c)
      requires reader !in grants && writer !in grants && reader != writer
      requires Advancing(readings) && |readings| > |Handles(Snapshot(), c)|
      requires Advancing(more) && |more| > |Handles(Snapshot(), c)| + 1
      modifies this, tableParts
      ensures ok ==>
                && Enabled(old(Snapshot()), CreateMailbox(c, readToken, writeToken, reader, writer))
                && Snapshot() == After(old(Snapshot()), CreateMailbox(c, readToken, writeToken, reader, writer)).0
                && Valid() && fresh(queueParts - old(queueParts)) && fresh(tableParts - old(tableParts))
      ensures old(Sturdy()) ==> ok && Sturdy()
    {
      hide Sane, BoxesOk, TablesOk, Sturdy, Advancing, Granted, Opened, AvlTree.Valid;
      SaneHere(c);
      Sizes();
      readToken, writeToken, ok := Open(threads[cores[c].current.value].process, reader, writer, readings, more);
    }

    /** A new mailbox has nothing in common with the others. */
    twostate lemma BoxAdded(new m: Mailbox)
      requires old(BoxesOk()) && mailboxes == old(mailboxes) + [m] && boxes == old(boxes) + [m.Value()]
      requires m.Valid() && fresh(m.messages) && fresh(m.waiting) && m.MessageNodes() == {} && m.WaitingNodes() == {}
      requires queueParts == old(queueParts) + {m.messages, m.waiting} && unchanged(old(queueParts))
      ensures BoxesOk()
    {
      hide Fifo.Valid, Mailbox.Value;
      forall i | 0 <= i < |old(mailboxes)|
        ensures mailboxes[i].Valid() && mailboxes[i].Value() == boxes[i]
        ensures {mailboxes[i].messages, mailboxes[i].waiting} <= old(queueParts)
        ensures mailboxes[i].MessageNodes() == old(mailboxes[i].MessageNodes()) <= queueParts
        ensures mailboxes[i].WaitingNodes() == old(mailboxes[i].WaitingNodes()) <= queueParts
      {
        var x := old(mailboxes)[i];
        assert mailboxes[i] == x && old(x.Valid() && x.Value() == boxes[i] && {x.messages, x.waiting} <= queueParts);
        assert old(x.MessageNodes() <= queueParts && x.WaitingNodes() <= queueParts);
      }
    }

    method AddMailbox()
      requires BoxesOk() && queueParts !! tableParts && this !in queueParts
      modifies this`mailboxes, this`boxes, this`sent, this`received, this`queueParts
      ensures BoxesOk() && Snapshot() == NewBox(old(Snapshot())) && fresh(queueParts - old(queueParts))
      ensures queueParts !! tableParts && this !in queueParts && |mailboxes| == |old(mailboxes)| + 1
    {
      hide BoxesOk, Mailbox.Value, Fifo.Valid;
      var mailbox := new Mailbox();
      mailboxes := mailboxes + [mailbox];
      boxes := boxes + [Box([], [])];
      sent, received := sent + [[]], received + [[]];
      queueParts := queueParts + {mailbox.messages, mailbox.waiting};
      BoxAdded(mailbox);
    }


    /** The call that makes a process, with a handle to it. */
    method ProcessCreate(c: nat, handle: nat, readings: seq<bv64>) returns (token: nat, ok: bool)
      requires Valid() && Sane(Snapshot()) && Runs(Snapshot(), c) && handle !in grants
      requires Advancing(readings) && |readings| > |Handles(Snapshot(), c)|
      modifies this, tableParts
      ensures Enabled(old(Snapshot()), CreateProcess(c, token, handle))
      ensures Snapshot() == After(old(Snapshot()), CreateProcess(c, token, handle)).0
      ensures ok ==> Valid() && fresh(tableParts - old(tableParts)) && queueParts == old(queueParts)
      ensures old(Sturdy()) ==> ok && Sturdy()
    {
      hide Sane, BoxesOk, TablesOk, Sturdy, Advancing, Granted, AvlTree.Valid;
      SaneHere(c);
      Sizes();
      var p := threads[cores[c].current.value].process;
      grants := grants[handle := Owning(|tables|)];
      AddTable();
      token, ok := RegisterForToken(p, handle, readings);
    }

    /** A new table has nothing in common with the others. */
    twostate lemma TableAdded(new x: HandleTable)
      requires old(TablesOk()) && tables == old(tables) + [x] && processes == old(processes) + [Process(x.table, false)]
      requires started == old(started) + [false] && fresh(x) && fresh(x.tree) && x.Valid() && x.tree.Repr == {}
      requires tableParts == old(tableParts) + {x, x.tree} && unchanged(old(tableParts))
      ensures TablesOk()
      ensures old(Sturdy()) && x.tree.Valid() ==> Sturdy()
    {
      hide HandleTable.Valid, AvlTree.Valid;
      forall q | 0 <= q < |old(tables)|
        ensures tables[q].Valid() && {tables[q], tables[q].tree} <= old(tableParts) && tables[q].tree.Repr <= tableParts
        ensures tables[q].tree.Repr == old(tables[q].tree.Repr) && tables[q].table == old(tables[q].table)
        ensures old(tables[q].tree.Valid()) ==> tables[q].tree.Valid()
      {
        var y := old(tables)[q];
        assert tables[q] == y && old(y.Valid() && {y, y.tree} <= tableParts && y.tree.Repr <= tableParts);
      }
    }

    method AddTable()
      requires TablesOk() && queueParts !! tableParts && this !in tableParts
      modifies this`tables, this`processes, this`started, this`tableParts
      ensures TablesOk() && Snapshot() == old(Snapshot()).(processes := old(processes) + [Process(map[], false)])
      ensures fresh(tableParts - old(tableParts)) && queueParts !! tableParts && this !in tableParts
      ensures |tables| == |old(tables)| + 1 && (old(Sturdy()) ==> Sturdy())
    {
      hide TablesOk, Sturdy, HandleTable.Valid, AvlTree.Valid;
      var table := new HandleTable();
      tables := tables + [table];
      processes := processes + [Process(map[], false)];
      started := started + [false];
      tableParts := tableParts + {table, table.tree};
      TableAdded(table);
    }

    /** Calls that make any other object register one handle. */
    method ObjectCreate(c: nat, handle: nat, transfer: bool, readings: seq<bv64>) returns (token: nat, ok: bool)
      requires Valid() && Sane(Snapshot()) && Runs(Snapshot(), c) && handle !in grants
      requires Advancing(readings) && |readings| > |Handles(Snapshot(), c)|
      modifies this, tableParts
      ensures Enabled(old(Snapshot()), CreateObject(c, token, handle, transfer))
      ensures Snapshot() == After(old(Snapshot()), CreateObject(c, token, handle, transfer)).0
      ensures ok ==> Valid() && fresh(tableParts - old(tableParts)) && queueParts == old(queueParts)
      ensures old(Sturdy()) ==> ok && Sturdy()
    {
      hide Sane, BoxesOk, TablesOk, Sturdy, Advancing, Granted, AvlTree.Valid;
      SaneHere(c);
      Sizes();
      grants := grants[handle := Grant(ToOther, true, true, transfer)];
      token, ok := RegisterForToken(threads[cores[c].current.value].process, handle, readings);
    }
  }

  /** The process and the token that a call drops, if it gets that far. */
  ghost function Gives(s: State, c: nat, via: nat, token: nat): Option<(nat, nat)>
    requires Sane(s) && Runs(s, c)
  {
    if Denial(s, c, via, WriteBox) == Ok && Refusal(s, c, token) == Ok then Some((s.threads[Current(s, c)].process, token)) else None
  }

  ghost function Releases(s: State, c: nat, token: nat): Option<(nat, nat)>
    requires Sane(s) && Runs(s, c)
  {
    if token == 0 then None else Some((s.threads[Current(s, c)].process, token))
  }

  /** The clock gives enough readings for a new token of the process under `via`, if there is one. */
  ghost predicate ReadsEnough(s: State, c: nat, via: nat, readings: seq<bv64>)
    requires Sane(s) && Runs(s, c)
  {
    Denial(s, c, via, StartProcess) == Ok ==> Advancing(readings) && |readings| > |s.processes[ProcessVia(s, c, via)].handles|
  }

  /** Why a process is not started. */
  ghost function StartRefusal(s: State, c: nat, via: nat, bootstrap: nat): Result
    requires Sane(s) && Runs(s, c)
  {
    if Denial(s, c, via, StartProcess) != Ok then Denial(s, c, via, StartProcess)
    else if Refusal(s, c, bootstrap) != Ok then Refusal(s, c, bootstrap)
    else if s.processes[ProcessVia(s, c, via)].started then InvalidArguments
    else Ok
  }

  ghost function Hands(s: State, c: nat, via: nat, bootstrap: nat): Option<(nat, nat)>
    requires Sane(s) && Runs(s, c)
  {
    if StartRefusal(s, c, via, bootstrap) == Ok then Some((s.threads[Current(s, c)].process, bootstrap)) else None
  }

  lemma StartParts(s: State, c: nat, via: nat, bootstrap: nat)
    requires Sane(s) && Runs(s, c)
    ensures StartRefusal(s, c, via, bootstrap) == Ok ==>
              && Denial(s, c, via, StartProcess) == Ok && Hands(s, c, via, bootstrap) == Some((s.threads[Current(s, c)].process, bootstrap))
              && (StartsItself(s, c, via) <==> ProcessVia(s, c, via) == s.threads[Current(s, c)].process)
    ensures StartRefusal(s, c, via, bootstrap) != Ok ==> Hands(s, c, via, bootstrap) == None
  {
    hide Sane, Denial, Refusal;
  }

  lemma StartRefused(s: State, c: nat, via: nat, bootstrap: nat, thread: nat, now: nat)
    requires Sane(s) && Runs(s, c) && StartRefusal(s, c, via, bootstrap) != Ok
    ensures Enabled(s, Start(c, via, bootstrap, 0, thread, now))
    ensures After(s, Start(c, via, bootstrap, 0, thread, now)) == (s, StartRefusal(s, c, via, bootstrap))
  {
    hide Denial, Refusal;
  }

  lemma StartDone(s: State, c: nat, via: nat, bootstrap: nat, token: nat, thread: nat, now: nat)
    requires Sane(s) && Runs(s, c) && StartRefusal(s, c, via, bootstrap) == Ok && Later(s, now) && thread !in s.threads
    requires Denial(s, c, via, StartProcess) == Ok && bootstrap in Handles(s, c)
    requires var p := ProcessVia(s, c, via);
             token in s.processes[p].handles ==> p == s.threads[Current(s, c)].process && token == bootstrap
    ensures Enabled(s, Start(c, via, bootstrap, token, thread, now))
    ensures After(s, Start(c, via, bootstrap, token, thread, now)) ==
            (Launched(s, s.threads[Current(s, c)].process, bootstrap, ProcessVia(s, c, via), token, Handles(s, c)[bootstrap], thread, now), Ok)
  {
    hide Denial, Refusal, Launched;
  }

  /** The handle under `via` is to the process that core `c` runs. */
  ghost predicate StartsItself(s: State, c: nat, via: nat)
    requires Sane(s) && Runs(s, c)
  {
    Denial(s, c, via, StartProcess) == Ok && ProcessVia(s, c, via) == s.threads[Current(s, c)].process
  }

  lemma NewBoxKeeps(s: State)
    ensures NewBox(s).processes == s.processes && |NewBox(s).boxes| == |s.boxes| + 1
  {
  }

  lemma RegisteredKeeps(s: State, p: nat, token: nat, handle: nat)
    requires p < |s.processes|
    ensures |Registered(s, p, token, handle).processes| == |s.processes|
    ensures Registered(s, p, token, handle).processes[p].handles == s.processes[p].handles[token := handle]
  {
  }

  lemma OneMore(m: map<nat, nat>, k: nat, v: nat)
    ensures |m[k := v]| <= |m| + 1
  {
    assert m[k := v].Keys == m.Keys + {k};
    SmallerSet(m.Keys + {k}, m.Keys + {k});
  }

  lemma QueuedWakes(s: State, b: nat, message: Message)
    requires b < |s.boxes| == |s.sent| && |s.cores| > 0
    ensures Wakes(Queued(s, b, message), b) == Wakes(s, b)
  {
  }

  lemma SameWake(s: State, s': State, b: nat)
    requires b < |s.boxes| && |s.cores| > 0 && s'.boxes == s.boxes && s'.cores == s.cores && s'.stale == s.stale
    ensures Wakes(s', b) == Wakes(s, b)
  {
  }

  lemma EarlyEither(s: State, c: nat, now: nat, b: nat, next: nat)
    requires c < |s.cores| && s.cores[c].current.Some? && Current(s, c) in s.threads && b < |s.boxes|
    requires Earliest(Park(s, c, now, b), c, next)
    ensures Earliest(Stamped(s.(cores := s.cores[c := s.cores[c].(current := None)]), Current(s, c), now), c, next)
  {
  }

  /** Taking the thread off its core before it queues up makes no difference. */
  lemma ParkedOtherwise(s: State, c: nat, now: nat, b: nat, pending: Option<nat>, next: nat)
    requires c < |s.cores| && s.cores[c].current.Some? && Current(s, c) in s.threads && b < |s.boxes|
    ensures var t := Current(s, c);
            var s1 := Dispatch(Stamped(s.(cores := s.cores[c := s.cores[c].(current := None)]), t, now), c, next);
            t in s1.threads && s1.boxes == s.boxes && Parked(s, c, now, b, pending, next) ==
            s1.(boxes := s1.boxes[b := s1.boxes[b].(waiting := s1.boxes[b].waiting + [t])],
                threads := s1.threads[t := s1.threads[t].(pending := pending)])
  {
  }
}
