/** `Pipe`: two machines run one after the other, the first one's output
    being the second one's input, and the chains of machines built from it. */
module IntcodePipe {
  import opened IntcodeDecode
  import opened IntcodeVm

  /** Something that implements `Machine`: a single Intcode machine, or a
      `Pipe` of two such things. */
  datatype Unit = Vm(machine: Machine) | Pipe(first: Unit, second: Unit)

  /** A machine's `execute`: `Pipe` is generic over the `Machine` trait, so the
      model takes the single-machine call as a parameter; for Intcode machines
      it is `IntcodeVm.Execute`. */
  type Executor = (Machine, seq<int>, nat) -> Outcome

  /** The end of one `execute` call on a unit: the unit's new state and the
      output, or the first error met. `Exhausted` marks a run cut short by the
      fuel bound. */
  datatype Reply = Ran(unit: Unit, output: seq<int>) | Fault(error: Error) | Exhausted

  /** `Machine::execute`. A pipe runs its first part on the input and its
      second part on what the first printed; an error in the first part is
      returned without running the second. Each machine gets `fuel` cycles. */
  function ExecuteUnit(exec: Executor, u: Unit, input: seq<int>, fuel: nat): (r: Reply)
    ensures r.Ran? ==> SameShape(r.unit, u)
    ensures u.Pipe? && ExecuteUnit(exec, u.first, input, fuel).Fault? ==> r == ExecuteUnit(exec, u.first, input, fuel)
  {
    match u
    case Vm(m) =>
      (match exec(m, input, fuel)
       case Done(m', output) => Ran(Vm(m'), output)
       case Failed(e, _) => Fault(e)
       case OutOfFuel => Exhausted)
    case Pipe(first, second) =>
      match ExecuteUnit(exec, first, input, fuel)
      case Fault(e) => Fault(e)
      case Exhausted => Exhausted
      case Ran(first', middle) =>
        match ExecuteUnit(exec, second, middle, fuel)
        case Fault(e) => Fault(e)
        case Exhausted => Exhausted
        case Ran(second', output) => Ran(Pipe(first', second'), output)
  }

  /** `u` and `v` nest their pipes the same way. */
  predicate SameShape(u: Unit, v: Unit)
  {
    match u
    case Vm(_) => v.Vm?
    case Pipe(a, b) => v.Pipe? && SameShape(a, v.first) && SameShape(b, v.second)
  }

  /** `Machine::finished`: a pipe is finished as soon as either part is. */
  predicate UnitFinished(u: Unit)
  {
    match u
    case Vm(m) => IsFinished(m)
    case Pipe(first, second) => UnitFinished(first) || UnitFinished(second)
  }

  /** `(a | b) | c` regrouped as `a | (b | c)`; anything else is left alone. */
  function Regroup(u: Unit): Unit
  {
    if u.Pipe? && u.first.Pipe? then Pipe(u.first.first, Pipe(u.first.second, u.second)) else u
  }

  /** A reply with its unit regrouped. */
  function RegroupReply(r: Reply): Reply
  {
    if r.Ran? then Ran(Regroup(r.unit), r.output) else r
  }

  /** Piping is associative: `(a | b) | c` and `a | (b | c)` print the same,
      fail with the same error, and end with each machine in the same state. */
  lemma PipeAssociative(exec: Executor, a: Unit, b: Unit, c: Unit, input: seq<int>, fuel: nat)
    ensures ExecuteUnit(exec, Pipe(a, Pipe(b, c)), input, fuel) == RegroupReply(ExecuteUnit(exec, Pipe(Pipe(a, b), c), input, fuel))
  {
  }

  /** The machines of a chain `ms[0] | ms[1] | ...`, grouped to the left as
      repeated `pipe` calls build it. */
  function Chain(ms: seq<Machine>): Unit
    requires |ms| >= 1
    decreases |ms|
  {
    if |ms| == 1 then Vm(ms[0]) else Pipe(Chain(ms[..|ms| - 1]), Vm(ms[|ms| - 1]))
  }

  /** The machines of a chain, first one first. */
  function Machines(u: Unit): seq<Machine>
  {
    match u
    case Vm(m) => [m]
    case Pipe(first, second) => Machines(first) + Machines(second)
  }

  /** A chain holds the machines it was built from, in order. */
  lemma {:induction false} ChainMachines(ms: seq<Machine>)
    requires |ms| >= 1
    ensures Machines(Chain(ms)) == ms
    decreases |ms|
  {
    if |ms| > 1 {
      ChainMachines(ms[..|ms| - 1]);
      assert ms[..|ms| - 1] + [ms[|ms| - 1]] == ms;
    }
  }

  /** The result of running machines one after the other by hand. */
  datatype Relayed = Relayed(machines: seq<Machine>, output: seq<int>) | Stopped(error: Error) | Unfinished

  /** Runs each machine in turn on what the one before it printed. */
  function Relay(exec: Executor, ms: seq<Machine>, input: seq<int>, fuel: nat): (r: Relayed)
    ensures r.Relayed? ==> |r.machines| == |ms|
    decreases |ms|
  {
    if |ms| == 0 then Relayed([], input)
    else
      match exec(ms[0], input, fuel)
      case Failed(e, _) => Stopped(e)
      case OutOfFuel => Unfinished
      case Done(m', middle) =>
        match Relay(exec, ms[1..], middle, fuel)
        case Relayed(rest, output) => Relayed([m'] + rest, output)
        case Stopped(e) => Stopped(e)
        case Unfinished => Unfinished
  }

  /** What running one more machine after a relay gives. */
  function Then(exec: Executor, r: Relayed, m: Machine, fuel: nat): Relayed
  {
    match r
    case Relayed(done, middle) =>
      (match exec(m, middle, fuel)
       case Done(m', output) => Relayed(done + [m'], output)
       case Failed(e, _) => Stopped(e)
       case OutOfFuel => Unfinished)
    case Stopped(e) => Stopped(e)
    case Unfinished => Unfinished
  }

  /** Relaying through one more machine is relaying, then running it. */
  lemma {:induction false} RelaySnoc(exec: Executor, ms: seq<Machine>, m: Machine, input: seq<int>, fuel: nat)
    ensures Relay(exec, ms + [m], input, fuel) == Then(exec, Relay(exec, ms, input, fuel), m, fuel)
    decreases |ms|
  {
    if |ms| > 0 {
      assert (ms + [m])[0] == ms[0] && (ms + [m])[1..] == ms[1..] + [m];
      match exec(ms[0], input, fuel)
      case Failed(_, _) =>
      case OutOfFuel =>
      case Done(m', middle) =>
        RelaySnoc(exec, ms[1..], m, middle, fuel);
        var rest := Relay(exec, ms[1..], middle, fuel);
        if rest.Relayed? && exec(m, rest.output, fuel).Done? {
          var last := exec(m, rest.output, fuel).machine;
          assert [m'] + (rest.machines + [last]) == ([m'] + rest.machines) + [last];
        }
    } else {
      assert ms + [m] == [m];
    }
  }

  /** A chain built with `pipe` behaves as running its machines one after the
      other: same output, same error, each machine ending in the same state. */
  lemma {:induction false} ChainRelays(exec: Executor, ms: seq<Machine>, input: seq<int>, fuel: nat)
    requires |ms| >= 1
    ensures var r, relay := ExecuteUnit(exec, Chain(ms), input, fuel), Relay(exec, ms, input, fuel);
      && (relay.Relayed? <==> r.Ran?)
      && (relay.Relayed? ==> r == Ran(Chain(relay.machines), relay.output))
      && (relay.Stopped? <==> r.Fault?)
      && (relay.Stopped? ==> r == Fault(relay.error))
    decreases |ms|
  {
    if |ms| == 1 {
      RelaySnoc(exec, [], ms[0], input, fuel);
      assert [] + [ms[0]] == ms;
    } else {
      var init, last := ms[..|ms| - 1], ms[|ms| - 1];
      ChainRelays(exec, init, input, fuel);
      RelaySnoc(exec, init, last, input, fuel);
      assert init + [last] == ms;
      var relay := Relay(exec, init, input, fuel);
      if relay.Relayed? && exec(last, relay.output, fuel).Done? {
        var done := relay.machines + [exec(last, relay.output, fuel).machine];
        assert done[..|done| - 1] == relay.machines;
      }
    }
  }

  /** A chain that runs through ends with the machines the relay ends with,
      in order. */
  lemma ChainRelaysMachines(exec: Executor, ms: seq<Machine>, input: seq<int>, fuel: nat)
    requires |ms| >= 1 && Relay(exec, ms, input, fuel).Relayed?
    ensures ExecuteUnit(exec, Chain(ms), input, fuel).Ran?
    ensures Machines(ExecuteUnit(exec, Chain(ms), input, fuel).unit) == Relay(exec, ms, input, fuel).machines
  {
    ChainRelays(exec, ms, input, fuel);
    ChainMachines(Relay(exec, ms, input, fuel).machines);
  }

  /** A chain is finished exactly when one of its machines is. */
  lemma {:induction false} ChainFinished(ms: seq<Machine>)
    requires |ms| >= 1
    ensures UnitFinished(Chain(ms)) <==> exists i :: 0 <= i < |ms| && IsFinished(ms[i])
    decreases |ms|
  {
    if |ms| > 1 {
      var init := ms[..|ms| - 1];
      ChainFinished(init);
      assert Chain(ms) == Pipe(Chain(init), Vm(ms[|ms| - 1]));
      if UnitFinished(Chain(ms)) && !IsFinished(ms[|ms| - 1]) {
        assert !UnitFinished(Vm(ms[|ms| - 1]));
        assert UnitFinished(Chain(init));
        var i :| 0 <= i < |init| && IsFinished(init[i]);
        assert IsFinished(ms[i]);
      }
      if exists i :: 0 <= i < |ms| && IsFinished(ms[i]) {
        var i :| 0 <= i < |ms| && IsFinished(ms[i]);
        if i < |ms| - 1 {
          assert IsFinished(init[i]);
        }
      }
    } else if IsFinished(ms[0]) {
      assert 0 <= 0 < |ms| && IsFinished(ms[0]);
    }
  }
}
