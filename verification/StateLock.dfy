/**
 Any number of vpn-admin processes, each holding the system-wide state lock for
 its whole command. Processes are interleaved step by step, may wait, and may
 die anywhere (the kernel then releases the lock). The lock is the only
 synchronization; that it serializes the commands is proved, not assumed.
 */
module StateLock {

  /** A command: its private start state and its steps on shared and private state. */
  datatype Command<!S, !L> = Command(start: L, steps: seq<(S, L) -> (S, L)>)

  /** `Gone(ran)`: finished or died after `ran` steps; either way its lock is released. */
  datatype Process<L> = Waiting | Running(pc: nat, local: L) | Gone(ran: nat)

  datatype World<S, L> = World(shared: S, held: bool, processes: seq<Process<L>>, order: seq<nat>)

  datatype Event = Acquire(p: nat) | Step(p: nat) | Exit(p: nat)

  function Start<S, L>(s: S, n: nat): World<S, L> {
    World(s, false, seq(n, _ => Waiting), [])
  }

  /** One scheduling decision; a decision that is not possible changes nothing. */
  function Next<S, L>(cmds: seq<Command<S, L>>, w: World<S, L>, e: Event): World<S, L> {
    if e.p >= |w.processes| || e.p >= |cmds| then w
    else
      var process := w.processes[e.p];
      match e
      case Acquire(p) =>
        if process.Waiting? && !w.held
        then World(w.shared, true, w.processes[p := Running(0, cmds[p].start)], w.order + [p]) else w
      case Step(p) =>
        if process.Running? && process.pc < |cmds[p].steps|
        then
          var (s, l) := cmds[p].steps[process.pc](w.shared, process.local);
          World(s, w.held, w.processes[p := Running(process.pc + 1, l)], w.order)
        else w
      case Exit(p) =>
        if process.Running? then World(w.shared, false, w.processes[p := Gone(process.pc)], w.order) else w
  }

  function Run<S, L>(cmds: seq<Command<S, L>>, w: World<S, L>, events: seq<Event>): World<S, L> {
    if events == [] then w
    else Next(cmds, Run(cmds, w, events[..|events| - 1]), events[|events| - 1])
  }

  // ------------------------------------------------------- the serial reference

  /** The first `n` steps of a command, alone. */
  function Alone<S, L>(cmd: Command<S, L>, n: nat, s: S): (S, L)
    requires n <= |cmd.steps|
  {
    if n == 0 then (s, cmd.start)
    else
      var (s', l) := Alone(cmd, n - 1, s);
      cmd.steps[n - 1](s', l)
  }

  /** How far a process has got. */
  function Ran<L>(p: Process<L>): nat {
    match p
    case Waiting => 0
    case Running(pc, _) => pc
    case Gone(ran) => ran
  }

  ghost predicate WellFormed<S(!new), L(!new)>(cmds: seq<Command<S, L>>, w: World<S, L>) {
    && |w.processes| == |cmds|
    && (forall i :: 0 <= i < |w.order| ==> w.order[i] < |cmds|)
    && (forall p :: 0 <= p < |cmds| ==> Ran(w.processes[p]) <= |cmds[p].steps|)
  }

  /** Running the processes of `order` one after another, each for as long as it got to run. */
  ghost function Serial<S(!new), L(!new)>(cmds: seq<Command<S, L>>, w: World<S, L>, s: S, order: seq<nat>): S
    requires WellFormed(cmds, w) && forall i :: 0 <= i < |order| ==> order[i] < |cmds|
  {
    if order == [] then s
    else
      var p := order[|order| - 1];
      Alone(cmds[p], Ran(w.processes[p]), Serial(cmds, w, s, order[..|order| - 1])).0
  }

  /** Only the last process to get the lock can be running, and the lock is held exactly while it is. */
  ghost predicate Exclusive<S(!new), L(!new)>(cmds: seq<Command<S, L>>, w: World<S, L>)
    requires WellFormed(cmds, w)
  {
    && (forall i, j :: 0 <= i < j < |w.order| ==> w.order[i] != w.order[j])
    && (forall p :: 0 <= p < |cmds| ==> (w.processes[p].Waiting? <==> p !in w.order))
    && (forall p :: 0 <= p < |cmds| && w.processes[p].Running? ==> w.held && w.order != [] && w.order[|w.order| - 1] == p)
    && (w.held ==> w.order != [] && w.processes[w.order[|w.order| - 1]].Running?)
  }

  /** The world is that of the serial run in lock order, private state of the holder included. */
  ghost predicate Serialized<S(!new), L(!new)>(cmds: seq<Command<S, L>>, s: S, w: World<S, L>) {
    && WellFormed(cmds, w) && Exclusive(cmds, w)
    && w.shared == Serial(cmds, w, s, w.order)
    && (w.held ==>
          var p := w.order[|w.order| - 1];
          w.processes[p].local == Alone(cmds[p], w.processes[p].pc, Serial(cmds, w, s, w.order[..|w.order| - 1])).1)
  }

  /** The serial run only depends on how far the listed processes got. */
  lemma {:induction false} SerialFrame<S(!new), L(!new)>(
    cmds: seq<Command<S, L>>, w: World<S, L>, w': World<S, L>, s: S, order: seq<nat>)
    requires WellFormed(cmds, w) && WellFormed(cmds, w') && forall i :: 0 <= i < |order| ==> order[i] < |cmds|
    requires forall i :: 0 <= i < |order| ==> Ran(w.processes[order[i]]) == Ran(w'.processes[order[i]])
    ensures Serial(cmds, w, s, order) == Serial(cmds, w', s, order)
  {
    if order != [] {
      SerialFrame(cmds, w, w', s, order[..|order| - 1]);
    }
  }

  lemma AcquireKeeps<S(!new), L(!new)>(cmds: seq<Command<S, L>>, s: S, w: World<S, L>, p: nat)
    requires Serialized(cmds, s, w)
    ensures Serialized(cmds, s, Next(cmds, w, Acquire(p)))
  {
    var w' := Next(cmds, w, Acquire(p));
    if w' != w {
      AcquireFrames(cmds, w, w', p);
      SerialFrame(cmds, w, w', s, w.order);
      assert w'.order[..|w.order|] == w.order;
    }
  }

  lemma AcquireFrames<S(!new), L(!new)>(cmds: seq<Command<S, L>>, w: World<S, L>, w': World<S, L>, p: nat)
    requires WellFormed(cmds, w) && Exclusive(cmds, w) && p < |cmds| && w.processes[p].Waiting? && !w.held
    requires w'.held && w'.order == w.order + [p] && w'.processes == w.processes[p := Running(0, cmds[p].start)]
    ensures WellFormed(cmds, w') && Exclusive(cmds, w')
    ensures forall i :: 0 <= i < |w.order| ==> Ran(w.processes[w.order[i]]) == Ran(w'.processes[w.order[i]])
  {
    assert w'.order[|w.order|] == p;
    forall q | 0 <= q < |cmds| ensures w'.processes[q].Waiting? <==> q !in w'.order {
      if q != p {
        assert q in w'.order <==> q in w.order;
      }
    }
  }

  lemma StepKeeps<S(!new), L(!new)>(cmds: seq<Command<S, L>>, s: S, w: World<S, L>, p: nat)
    requires Serialized(cmds, s, w)
    ensures Serialized(cmds, s, Next(cmds, w, Step(p)))
  {
    var w' := Next(cmds, w, Step(p));
    if p < |cmds| && w.processes[p].Running? && w.processes[p].pc < |cmds[p].steps| {
      var front, pc, l := w.order[..|w.order| - 1], w.processes[p].pc, w.processes[p].local;
      assert w.order[|w.order| - 1] == p;
      StepFrames(cmds, w, w', p);
      SerialFrame(cmds, w, w', s, front);
      var base := Serial(cmds, w, s, front);
      assert Alone(cmds[p], pc, base) == (w.shared, l);
      assert Alone(cmds[p], pc + 1, base) == cmds[p].steps[pc](w.shared, l);
      assert Serial(cmds, w', s, w'.order) == Alone(cmds[p], pc + 1, base).0;
    }
  }

  lemma StepFrames<S(!new), L(!new)>(cmds: seq<Command<S, L>>, w: World<S, L>, w': World<S, L>, p: nat)
    requires WellFormed(cmds, w) && Exclusive(cmds, w) && p < |cmds| && w.processes[p].Running?
    requires w.processes[p].pc < |cmds[p].steps|
    requires w'.order == w.order && w'.held == w.held && |w'.processes| == |cmds|
    requires w'.processes[p].Running? && w'.processes[p].pc == w.processes[p].pc + 1
    requires forall q :: 0 <= q < |cmds| && q != p ==> w'.processes[q] == w.processes[q]
    ensures WellFormed(cmds, w') && Exclusive(cmds, w')
    ensures forall i :: 0 <= i < |w.order| - 1 ==> Ran(w.processes[w.order[i]]) == Ran(w'.processes[w.order[i]])
  {}

  lemma ExitKeeps<S(!new), L(!new)>(cmds: seq<Command<S, L>>, s: S, w: World<S, L>, p: nat)
    requires Serialized(cmds, s, w)
    ensures Serialized(cmds, s, Next(cmds, w, Exit(p)))
  {
    var w' := Next(cmds, w, Exit(p));
    if p < |cmds| && w.processes[p].Running? {
      SerialFrame(cmds, w, w', s, w.order);
    }
  }

  /**
   Every interleaving of any number of commands, deaths included, is at every
   moment the serial run of the same commands in lock-acquisition order, each
   for as many steps as it got to take; and no two commands ever overlap.
   */
  lemma {:induction false} EveryScheduleIsSerial<S(!new), L(!new)>(cmds: seq<Command<S, L>>, s: S, events: seq<Event>)
    ensures Serialized(cmds, s, Run(cmds, Start(s, |cmds|), events))
  {
    if events != [] {
      var front := events[..|events| - 1];
      EveryScheduleIsSerial(cmds, s, front);
      var w := Run(cmds, Start(s, |cmds|), front);
      match events[|events| - 1]
      case Acquire(p) => AcquireKeeps(cmds, s, w, p);
      case Step(p) => StepKeeps(cmds, s, w, p);
      case Exit(p) => ExitKeeps(cmds, s, w, p);
    }
  }
}
