/** From interrupt to main loop: the handler leaves a message in a bounded queue, ignoring
    that the queue may be full; the main loop takes messages with interrupts disabled and
    empties the event ring for each. */
module Handoff {
  import opened Queues

  datatype Message = InterruptXhci

  const CAPACITY := 32

  /** Where the main loop is. `Drain` is in front of the test of the inner loop, `Process` in
      front of `ProcessEvent`. `Halted` is inside `hlt`. */
  datatype Pc = Cli | Test | Hlt | Halted | TakeFront | DoPop | Sti | Drain | Process

  /** `unread` counts the events posted and not processed, `latched` is the pending interrupt,
      `enabled` the interrupt flag, `inHandler` says that the handler was entered and has not
      pushed yet. */
  datatype State = State(unread: nat, latched: bool, enabled: bool, inHandler: bool, queue: seq<Message>, pc: Pc)

  function Init(): State {
    State(0, false, true, false, [], Cli)
  }

  datatype Step = Post | Enter | Return | Main

  /** The controller posts an event and raises its interrupt, at any time. */
  function PostEvent(s: State): State {
    s.(unread := s.unread + 1, latched := true)
  }

  predicate CanEnter(s: State) {
    s.latched && s.enabled && !s.inHandler
  }

  /** Delivery through an interrupt gate: interrupts go off until the handler returns. */
  function EnterHandler(s: State): State {
    s.(latched := false, inHandler := true)
  }

  /** The handler pushes, whether there is room or not, and returns; a halted processor goes
      on behind its `hlt`. */
  function ReturnFromHandler(s: State): State {
    s.(inHandler := false, queue := Pushed(s.queue, CAPACITY, InterruptXhci),
       pc := if s.pc == Halted then Cli else s.pc)
  }

  predicate CanRun(s: State) {
    !s.inHandler && s.pc != Halted
  }

  function RunMain(s: State): State
    requires CanRun(s)
  {
    match s.pc
    case Cli => s.(enabled := false, pc := Test)
    case Test => s.(pc := if |s.queue| == 0 then Hlt else TakeFront)
    case Hlt => s.(enabled := true, pc := Halted)
    case TakeFront => s.(pc := DoPop)
    case DoPop => s.(queue := Popped(s.queue), pc := Sti)
    case Sti => s.(enabled := true, pc := Drain)
    case Drain => s.(pc := if s.unread > 0 then Process else Cli)
    case Process => s.(unread := if s.unread > 0 then s.unread - 1 else 0, pc := Drain)
  }

  ghost predicate NextStep(s: State, t: State, step: Step) {
    match step
    case Post => t == PostEvent(s)
    case Enter => CanEnter(s) && t == EnterHandler(s)
    case Return => s.inHandler && t == ReturnFromHandler(s)
    case Main => CanRun(s) && t == RunMain(s)
  }

  ghost predicate Next(s: State, t: State) {
    exists step :: NextStep(s, t, step)
  }

  /** The main loop still has a full pass over the event ring in front of it. */
  predicate Draining(s: State) {
    s.pc == Sti || s.pc == Drain || s.pc == Process
  }

  /** An unread event is never forgotten: something on the way to the event ring remembers it. */
  predicate Remembered(s: State) {
    s.unread > 0 ==> s.latched || s.inHandler || |s.queue| > 0 || Draining(s)
  }

  predicate QueueAccess(pc: Pc) {
    pc == Test || pc == TakeFront || pc == DoPop
  }

  predicate Inv(s: State) {
    && |s.queue| <= CAPACITY
    && Remembered(s)
    && ((QueueAccess(s.pc) || s.pc == Hlt || s.pc == Sti) ==> !s.enabled && !s.inHandler)
    && (!(QueueAccess(s.pc) || s.pc == Hlt || s.pc == Sti) ==> s.enabled)
    && ((s.pc == TakeFront || s.pc == DoPop) ==> |s.queue| > 0)
    && ((s.pc == Hlt || s.pc == Halted) ==> |s.queue| == 0)
    && (s.pc == Process ==> s.unread > 0)
  }

  lemma NextInv(s: State, t: State)
    requires Inv(s) && Next(s, t)
    ensures Inv(t)
  {
    var step :| NextStep(s, t, step);
  }

  ghost predicate StepAt(run: seq<State>, i: nat)
    requires i + 1 < |run|
  {
    Next(run[i], run[i + 1])
  }

  ghost predicate IsRun(run: seq<State>) {
    |run| > 0 && run[0] == Init() && forall i :: 0 <= i < |run| - 1 ==> StepAt(run, i)
  }

  /** No lost wake-up, in every interleaving of posts, interrupts and main-loop steps: an
      unread event implies a latched interrupt, a handler about to push, a queued message or
      a main loop still draining. The main loop touches the queue only with interrupts
      disabled and never while the handler is in progress. */
  lemma {:induction false} RunRemembers(run: seq<State>, i: nat)
    requires IsRun(run) && i < |run|
    ensures Inv(run[i]) && Remembered(run[i])
    ensures QueueAccess(run[i].pc) ==> !run[i].enabled && !run[i].inHandler
  {
    if i > 0 {
      RunRemembers(run, i - 1);
      assert StepAt(run, i - 1);
      NextInv(run[i - 1], run[i]);
    }
  }

  /** A processor that sleeps with no interrupt in sight has nothing left to do. */
  lemma SleepsOnlyWhenDone(s: State)
    requires Inv(s) && s.pc == Halted && !s.latched && !s.inHandler
    ensures s.unread == 0
  {
  }

  // ---------------------------------------------------------------------------
  // Progress: once nothing more is posted, everything posted gets processed
  // ---------------------------------------------------------------------------

  function Position(pc: Pc): nat {
    match pc
    case Halted => 0
    case Hlt => 1
    case DoPop => 1
    case TakeFront => 2
    case Test => 3
    case Cli => 4
    case Process => 5
    case Drain => 6
    case Sti => 7
  }

  /** A bound on the steps other than posts that lie ahead. */
  function Work(s: State): nat {
    20 * (s.unread + |s.queue|) + (if s.latched then 50 else 0) + (if s.inHandler then 30 else 0) + Position(s.pc)
  }

  lemma WorkDecreases(s: State, t: State, step: Step)
    requires Inv(s) && NextStep(s, t, step) && step != Post
    ensures Work(t) < Work(s)
  {
  }

  ghost predicate PostFree(run: seq<State>, steps: seq<Step>) {
    |run| == |steps| + 1 && forall i :: 0 <= i < |steps| ==> PostFreeAt(run, steps, i)
  }

  ghost predicate PostFreeAt(run: seq<State>, steps: seq<Step>, i: nat)
    requires i < |steps| < |run|
  {
    steps[i] != Post && NextStep(run[i], run[i + 1], steps[i])
  }

  lemma {:induction false} PostFreeWork(run: seq<State>, steps: seq<Step>, i: nat)
    requires PostFree(run, steps) && Inv(run[0]) && i < |run|
    ensures Inv(run[i]) && Work(run[i]) + i <= Work(run[0])
  {
    if i > 0 {
      PostFreeWork(run, steps, i - 1);
      assert PostFreeAt(run, steps, i - 1);
      assert Next(run[i - 1], run[i]);
      NextInv(run[i - 1], run[i]);
      WorkDecreases(run[i - 1], run[i], steps[i - 1]);
    }
  }

  ghost predicate Stuck(s: State) {
    forall t, step :: NextStep(s, t, step) ==> step == Post
  }

  lemma CanMove(s: State)
    requires Inv(s) && (s.pc != Halted || s.latched || s.inHandler)
    ensures !Stuck(s)
  {
    if s.inHandler {
      assert NextStep(s, ReturnFromHandler(s), Return);
    } else if s.pc != Halted {
      assert NextStep(s, RunMain(s), Main);
    } else {
      assert NextStep(s, EnterHandler(s), Enter);
    }
  }

  /** Liveness: from every reachable state, any run without posts ends after at most `Work`
      steps, and where it can go no further no event is left unread. */
  lemma EverythingGetsProcessed(run: seq<State>, steps: seq<Step>)
    requires PostFree(run, steps) && Inv(run[0])
    ensures |steps| <= Work(run[0])
    ensures Stuck(run[|steps|]) ==> run[|steps|].pc == Halted && run[|steps|].unread == 0
  {
    PostFreeWork(run, steps, |steps|);
    var s := run[|steps|];
    if s.pc != Halted || s.latched || s.inHandler {
      CanMove(s);
    } else {
      SleepsOnlyWhenDone(s);
    }
  }
}
