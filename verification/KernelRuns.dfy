/** What holds in every state that the kernel can reach from start-up. */
module KernelRuns {
  import opened Basics
  import opened Kernel
  import opened KernelPlaces
  import opened KernelLinks
  import opened KernelWaiting
  import opened KernelMail
  import opened KernelHandles
  import opened KernelSingle

  /** All cores idle, and the first process with its first thread, ready on the first core. */
  function Boot(cores: nat): State {
    State(seq(cores, i requires 0 <= i < cores => Core(None, if i == 0 then {0} else {})),
          [], [Process(map[], true)], map[0 := Thread(0, 0, None)], map[], 1, {}, [], [])
  }

  /** What holds at start-up and after every step. */
  ghost predicate Good(s: State, place: map<nat, Where>, spots: map<nat, Spot>) {
    Sane(s) && Placed(s, place) && Clocked(s) && LinksOk(s) && Held(s, spots)
  }

  lemma BootOk(cores: nat)
    requires cores > 0
    ensures Good(Boot(cores), map[0 := Ready(0)], map[]) && MailOk(Boot(cores)) && SingleOk(Boot(cores))
  {
    var s, place := Boot(cores), map[0 := Ready(0)];
    forall t, w {:trigger Is(s, t, w)} ensures Is(s, t, w) <==> t in place && place[t] == w {
      match w
      case Running(c) => assert c < |s.cores| ==> s.cores[c].current == None;
      case Ready(c) => assert c < |s.cores| ==> s.cores[c].ready == if c == 0 then {0} else {};
      case Waiting(b) =>
    }
    SaneIf(s, place);
  }

  /** In every reachable state each thread is in exactly one place and each handle in at most one, no
      thread has a timestamp still to come, and no heap holds links left over. As long as no process
      has been given a second thread, what was read from each mailbox is the beginning of what was
      written. */
  lemma Reachable(cores: nat, ss: seq<State>, actions: seq<Action>, i: nat) returns (place: map<nat, Where>, spots: map<nat, Spot>)
    requires cores > 0 && IsRun(ss, actions) && ss[0] == Boot(cores) && i < |ss|
    ensures Good(ss[i], place, spots)
    ensures (forall k: nat :: k < i ==> !actions[k].Spawn?) ==> MailOk(ss[i])
  {
    hide Placed, Held, MailOk, SingleOk, LinksOk, Clocked, Step, Boot, Sane;
    BootOk(cores);
    place := AlwaysPlaced(ss, actions, i, map[0 := Ready(0)]);
    spots := AlwaysHeld(ss, actions, i, map[]);
    AlwaysClocked(ss, actions, i);
    AlwaysLinks(ss, actions, i, map[0 := Ready(0)]);
    if i > 0 {
      var before := AlwaysPlaced(ss, actions, i - 1, map[0 := Ready(0)]);
      var _ := StepPlaced(ss[i - 1], actions[i - 1], ss[i], before);
    }
    if forall k: nat :: k < i ==> !actions[k].Spawn? {
      Prefix(ss, actions, i);
      MailInOrder(ss[..i + 1], actions[..i], i, map[0 := Ready(0)], map[]);
    }
  }

  lemma Prefix(ss: seq<State>, actions: seq<Action>, i: nat)
    requires IsRun(ss, actions) && i < |ss|
    ensures IsRun(ss[..i + 1], actions[..i])
  {
    hide Step;
  }

  lemma Suffix(ss: seq<State>, actions: seq<Action>, i: nat)
    requires IsRun(ss, actions) && i < |ss|
    ensures IsRun(ss[i..], actions[i..])
  {
    hide Step;
    var tail, rest := ss[i..], actions[i..];
    forall k: nat | k < |rest| ensures Step(tail[k], rest[k], tail[k + 1]) {
      assert Step(ss[i + k], actions[i + k], ss[i + k + 1]);
    }
  }

  /** From any moment of any run of the kernel on, a thread that is ready on a core and stays so sees the
      core choose no more often than there are other threads not stamped later than it. */
  lemma NeverStarved(cores: nat, ss: seq<State>, actions: seq<Action>, i: nat, c: nat, target: nat)
    requires cores > 0 && IsRun(ss, actions) && ss[0] == Boot(cores) && i < |ss| && Waits(ss[i], c, target)
    requires forall k: nat :: i <= k < |ss| ==> Waits(ss[k], c, target)
    ensures IsRun(ss[i..], actions[i..])
    ensures Choices(ss[i..], actions[i..], c, |actions| - i) <= |Others(ss[i], target)|
  {
    hide Placed, Held, LinksOk, Clocked, Step, Boot, Sane, Waits, Others;
    var place, _ := Reachable(cores, ss, actions, i);
    Suffix(ss, actions, i);
    var tail := ss[i..];
    forall k: nat | k < |tail| ensures Waits(tail[k], c, target) {
      assert Waits(ss[i + k], c, target);
    }
    BoundedWaiting(tail, actions[i..], c, target, place);
  }
}
