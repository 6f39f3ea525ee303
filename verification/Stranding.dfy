/** A waiting port that was unplugged strands those behind it: a run that shows it, and why
    nothing short of a new connection helps. */
module Stranding {
  import opened Wrappers
  import opened Enumeration

  /** Every port connected and reset, but for those in `gone`. */
  function Registers(gone: set<nat>): (ports: seq<PortRegister>)
    ensures |ports| == PORTS && forall p: nat :: p < PORTS ==> (ports[p].connected <==> p !in gone)
  {
    seq(PORTS, i => PortRegister(i !in gone, true, true, 4))
  }

  /** Ports 2 and 3 wait while nobody is being addressed, though port 3 is connected. */
  predicate Stranded(d: Driver) {
    Shape(d) && d.addressing == 0 && d.phase[2] == WaitingAddressed && d.phase[3] == WaitingAddressed
  }

  ghost predicate PathAt(run: seq<System>, steps: seq<Step>, i: nat)
    requires i < |steps| < |run|
  {
    NextStep(run[i], run[i + 1], steps[i])
  }

  /** States that these steps lead through. */
  ghost predicate Path(run: seq<System>, steps: seq<Step>) {
    |run| == |steps| + 1 && forall i :: 0 <= i < |steps| ==> PathAt(run, steps, i)
  }

  lemma PathMore(run: seq<System>, steps: seq<Step>, t: System, step: Step)
    requires Path(run, steps) && NextStep(run[|run| - 1], t, step)
    ensures Path(run + [t], steps + [step])
  {
    forall i | 0 <= i < |steps| + 1 ensures PathAt(run + [t], steps + [step], i) {
      if i < |steps| { assert PathAt(run, steps, i); }
    }
  }

  lemma PathConcat(run: seq<System>, steps: seq<Step>, run': seq<System>, steps': seq<Step>)
    requires Path(run, steps) && Path(run', steps') && run[|run| - 1] == run'[0]
    ensures Path(run + run'[1..], steps + steps')
  {
    var all, some := run + run'[1..], steps + steps';
    forall i | 0 <= i < |some| ensures PathAt(all, some, i) {
      if i < |steps| { assert PathAt(run, steps, i); } else { assert PathAt(run', steps', i - |steps|); }
    }
  }

  lemma PathIsRun(run: seq<System>, steps: seq<Step>)
    requires Path(run, steps) && run[0] == Init()
    ensures IsRun(run)
  {
    forall i | 0 <= i < |run| - 1 ensures StepAt(run, i) {
      assert PathAt(run, steps, i);
    }
  }

  /** Three ports appear, */
  function Appear(): seq<Step> {
    [ConfigureStep(1, Registers({})), ConfigureStep(2, Registers({})), ConfigureStep(3, Registers({}))]
  }

  /** the first is addressed, */
  function Address(): seq<Step> {
    [PortStatusStep(1), HandleStep(Registers({})), CompleteStep(1), HandleStep(Registers({}))]
  }

  /** and port 2 goes away meanwhile. */
  function Finish(): seq<Step> {
    [CompleteStep(1), HandleStep(Registers({2}))]
  }

  /** Port 1 is being reset and the other two wait. */
  predicate Begun(s: System) {
    && Shape(s.d) && s.events == [] && s.d.issued == [] && s.d.addressing == 1
    && s.d.phase == Init().d.phase[1 := ResettingPort][2 := WaitingAddressed][3 := WaitingAddressed]
    && s.d.devices == Init().d.devices
  }

  lemma ThreePortsAppear() returns (run: seq<System>)
    ensures Path(run, Appear()) && run[0] == Init() && Begun(run[3])
  {
    var all := Registers({});
    var s1 := Init().(d := ConfigurePort(Init().d, all, 1).0);
    var s2 := s1.(d := ConfigurePort(s1.d, all, 2).0);
    var s3 := s2.(d := ConfigurePort(s2.d, all, 3).0);
    PathMore([Init()], [], s1, ConfigureStep(1, all));
    PathMore([Init()] + [s1], [] + [ConfigureStep(1, all)], s2, ConfigureStep(2, all));
    run := [Init()] + [s1] + [s2];
    PathMore(run, [] + [ConfigureStep(1, all)] + [ConfigureStep(2, all)], s3, ConfigureStep(3, all));
    run := run + [s3];
    assert [] + [ConfigureStep(1, all)] + [ConfigureStep(2, all)] + [ConfigureStep(3, all)] == Appear();
  }

  /** Port 1's device is being addressed. */
  predicate Addressing(s: System) {
    && Shape(s.d) && s.events == [] && s.d.issued == [AddressDevice(1)] && s.d.addressing == 1
    && s.d.phase == Init().d.phase[1 := AddressingDevice][2 := WaitingAddressed][3 := WaitingAddressed]
    && s.d.devices == Init().d.devices[1 := Some(Device(1, 0, false))]
  }

  lemma FirstIsAddressed(s3: System) returns (s4: System, s5: System, s6: System, s7: System)
    requires Begun(s3)
    ensures NextStep(s3, s4, Address()[0]) && NextStep(s4, s5, Address()[1])
    ensures NextStep(s5, s6, Address()[2]) && NextStep(s6, s7, Address()[3]) && Addressing(s7)
  {
    s4 := Post(s3, PortStatus(1));
    s5 := Handle(s4, Registers({}));
    s6 := Complete(s5, 1);
    s7 := Handle(s6, Registers({}));
  }

  lemma FourSteps(s: System, t: System, u: System, v: System, w: System, steps: seq<Step>)
    requires |steps| == 4 && NextStep(s, t, steps[0]) && NextStep(t, u, steps[1])
    requires NextStep(u, v, steps[2]) && NextStep(v, w, steps[3])
    ensures Path([s, t, u, v, w], steps)
  {
    var run := [s, t, u, v, w];
    assert PathAt(run, steps, 0) && PathAt(run, steps, 1) && PathAt(run, steps, 2) && PathAt(run, steps, 3);
  }

  lemma AddressedPath(s: System) returns (run: seq<System>)
    requires Begun(s)
    ensures Path(run, Address()) && run[0] == s && Addressing(run[4])
  {
    var t, u, v, w := FirstIsAddressed(s);
    FourSteps(s, t, u, v, w, Address());
    run := [s, t, u, v, w];
  }

  lemma OthersAreStranded(s: System) returns (run: seq<System>)
    requires Addressing(s)
    ensures Path(run, Finish()) && run[0] == s && run[2].events == [] && run[2].d.issued == [] && Stranded(run[2].d)
  {
    var t := Complete(s, 1);
    assert FirstWaiting(t.d.phase, 0) == 2 by {
      assert t.d.phase[2] == WaitingAddressed;
    }
    var u := Handle(t, Registers({2}));
    run := [s, t, u];
    assert PathAt(run, Finish(), 0) && PathAt(run, Finish(), 1);
  }

  /** A reachable state, with port 3 connected throughout, in which nobody is going to address it. */
  lemma StrandingRun() returns (run: seq<System>)
    ensures IsRun(run) && Path(run, Appear() + Address() + Finish())
    ensures run[9].events == [] && run[9].d.issued == [] && Stranded(run[9].d)
  {
    var a := ThreePortsAppear();
    var b := AddressedPath(a[3]);
    var c := OthersAreStranded(b[4]);
    PathConcat(a, Appear(), b, Address());
    PathConcat(a + b[1..], Appear() + Address(), c, Finish());
    run := a + b[1..] + c[1..];
    PathIsRun(run, Appear() + Address() + Finish());
  }

  /** No port that the driver has not met yet is found connected in this step. */
  predicate NoNewPort(s: System, step: Step) {
    match step
    case ConfigureStep(p, ports) => p < |s.d.phase| && s.d.phase[p] != NotConnected
    case HandleStep(ports) =>
      |s.events| > 0 && s.events[0].PortStatus? ==>
        var p := s.events[0].port;
        p < |s.d.phase| && p < |ports| && (s.d.phase[p] == NotConnected ==> !ports[p].connected)
    case _ => true
  }

  /** A status change of a waiting port is answered with an error, plugged in again or not. */
  lemma WaitingIsInvalid(d: Driver, ports: seq<PortRegister>, p: nat)
    requires Shape(d) && Enumeration.Registers(ports) && p < PORTS && d.phase[p] == WaitingAddressed
    ensures OnPortStatus(d, ports, p) == (d, InvalidPhase)
  {
  }

  /** While nobody is addressed and no new port turns up, whoever waits goes on waiting. */
  lemma WaitingStays(s: System, t: System, step: Step)
    requires Inv(s) && NextStep(s, t, step) && NoNewPort(s, step) && s.d.addressing == 0
    ensures t.d.addressing == 0 && |t.d.phase| == PORTS
    ensures forall p :: 0 <= p < PORTS && s.d.phase[p] == WaitingAddressed ==> t.d.phase[p] == WaitingAddressed
  {
    if step.HandleStep? && s.events[0].Completion? {
      HeadIsExpected(s);
    }
  }

  ghost predicate QuietStepAt(run: seq<System>, steps: seq<Step>, i: nat)
    requires i < |steps| < |run|
  {
    NextStep(run[i], run[i + 1], steps[i]) && NoNewPort(run[i], steps[i])
  }

  lemma QuietStep(run: seq<System>, steps: seq<Step>, i: nat)
    requires i < |steps| < |run| && QuietStepAt(run, steps, i) && Inv(run[i]) && run[i].d.addressing == 0
    ensures Inv(run[i + 1]) && run[i + 1].d.addressing == 0
    ensures forall p :: 0 <= p < PORTS && run[i].d.phase[p] == WaitingAddressed ==> run[i + 1].d.phase[p] == WaitingAddressed
  {
    assert Next(run[i], run[i + 1]);
    NextInv(run[i], run[i + 1]);
    WaitingStays(run[i], run[i + 1], steps[i]);
  }

  /** The same over any number of steps. */
  lemma {:induction false} StrandedForEver(run: seq<System>, steps: seq<Step>, i: nat)
    requires |run| == |steps| + 1 && i < |run| && Inv(run[0]) && run[0].d.addressing == 0
    requires forall k :: 0 <= k < |steps| ==> QuietStepAt(run, steps, k)
    ensures Inv(run[i]) && run[i].d.addressing == 0
    ensures forall p :: 0 <= p < PORTS && run[0].d.phase[p] == WaitingAddressed ==> run[i].d.phase[p] == WaitingAddressed
  {
    if i > 0 {
      StrandedForEver(run, steps, i - 1);
      QuietStep(run, steps, i - 1);
    }
  }
}
