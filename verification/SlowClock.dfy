/** A run of two devices that stay apart because the second copies with a clock behind the stamp of
    what it holds. */
module SlowClock {
  import opened Wrappers
  import opened Content
  import opened Sync
  import opened SyncNet
  import opened SyncSteps
  import opened Convergence

  const PAIR: seq<Sync.DeviceId> := [0, 1]

  /** The first device copies `a` at time 2. */
  function First(a: Content): Item {
    NewItem(0, a, 0, 2)
  }

  /** The second copies `b` at time 1. */
  function Second(b: Content): Item {
    NewItem(1, b, 1, 1)
  }

  function Holding(id: Sync.DeviceId, seen: seq<ItemId>, x: Item, writes: nat): Device {
    Device(Engine(id, Recent(seen, set i | i in seen), None, Some(CurrentOf(x))), Some(x.content), writes)
  }

  function Sent(a: Content): Network {
    Network([Holding(0, [0], First(a), 0), Device(NewEngine(1), None, 0)], [Message(1, First(a))], 1)
  }

  function Arrived(a: Content): Network {
    Network([Holding(0, [0], First(a), 0), Holding(1, [0], First(a), 1)], [], 1)
  }

  function CopiedBack(a: Content, b: Content): Network {
    Network([Holding(0, [0], First(a), 0), Holding(1, [0, 1], Second(b), 1)], [Message(0, Second(b))], 2)
  }

  function Apart(a: Content, b: Content): Network {
    Network([Holding(0, [0, 1], First(a), 0), Holding(1, [0, 1], Second(b), 1)], [], 2)
  }

  lemma OthersOfTwo(from: nat, x: Item)
    requires from < 2
    ensures Others(2, from, x) == [Message(1 - from, x)]
  {
    assert Others(1, from, x) == Others(0, from, x) + if 0 == from then [] else [Message(0, x)];
  }

  /** One step of a run. */
  ghost predicate Leads(net: Network, issued: set<Item>, step: Step, net': Network, issued': set<Item>) {
    Fair(net, issued, step) && net' == After(net, step) && issued' == Issued(net, issued, step)
  }

  lemma FirstCopies(a: Content)
    ensures Leads(Start(PAIR), {}, Copy(0, a, 0, 2), Sent(a), {First(a)})
  {
    OthersOfTwo(0, First(a));
    var net := After(Start(PAIR), Copy(0, a, 0, 2));
    assert net.devices[0] == Holding(0, [0], First(a), 0) && net.devices[1] == Device(NewEngine(1), None, 0);
  }

  lemma SecondHears(a: Content)
    ensures Leads(Sent(a), {First(a)}, Deliver(0, false, 7, 7), Arrived(a), {First(a)})
  {
    WriteThenEcho(NewEngine(1), First(a), 7, 7);
    var net := After(Sent(a), Deliver(0, false, 7, 7));
    assert net.devices[1] == Holding(1, [0], First(a), 1);
  }

  lemma SecondCopies(a: Content, b: Content)
    requires IdentityOf(a) != IdentityOf(b)
    ensures Leads(Arrived(a), {First(a)}, Copy(1, b, 1, 1), CopiedBack(a, b), {First(a), Second(b)})
    ensures CopiesBack(Arrived(a), Copy(1, b, 1, 1), 1)
  {
    OthersOfTwo(1, Second(b));
    var net := After(Arrived(a), Copy(1, b, 1, 1));
    assert net.devices[1] == Holding(1, [0, 1], Second(b), 1);
  }

  lemma FirstIgnores(a: Content, b: Content)
    ensures Leads(CopiedBack(a, b), {First(a), Second(b)}, Deliver(0, false, 7, 7), Apart(a, b), {First(a), Second(b)})
  {
    var net := After(CopiedBack(a, b), Deliver(0, false, 7, 7));
    assert net.devices[0] == Holding(0, [0, 1], First(a), 0);
  }

  /** A run and one step more. */
  lemma OneMoreStep(nets: seq<Network>, issued: seq<set<Item>>, steps: seq<Step>, step: Step,
                    net: Network, after: set<Item>)
    returns (nets': seq<Network>, issued': seq<set<Item>>, steps': seq<Step>)
    requires Run(PAIR, nets, issued, steps) && Leads(nets[|steps|], issued[|steps|], step, net, after)
    ensures Run(PAIR, nets', issued', steps') && |steps'| == |steps| + 1
    ensures nets <= nets' && issued <= issued' && steps <= steps'
    ensures nets'[|steps'|] == net && issued'[|steps'|] == after && steps'[|steps|] == step
  {
    nets', issued', steps' := nets + [net], issued + [after], steps + [step];
    forall k {:trigger steps'[k]} | 0 <= k < |steps'|
      ensures Leads(nets'[k], issued'[k], steps'[k], nets'[k + 1], issued'[k + 1])
    {
      if k < |steps| {
        assert steps'[k] == steps[k];
      }
    }
  }

  lemma BothHold(a: Content) returns (nets: seq<Network>, issued: seq<set<Item>>, steps: seq<Step>)
    ensures Run(PAIR, nets, issued, steps) && |steps| == 2
    ensures nets[2] == Arrived(a) && issued[2] == {First(a)}
  {
    FirstCopies(a);
    SecondHears(a);
    assert Run(PAIR, [Start(PAIR)], [{}], []);
    nets, issued, steps := OneMoreStep([Start(PAIR)], [{}], [], Copy(0, a, 0, 2), Sent(a), {First(a)});
    nets, issued, steps := OneMoreStep(nets, issued, steps, Deliver(0, false, 7, 7), Arrived(a), {First(a)});
  }

  /** The first ignores the older copy, the second holds on to it: nothing is in flight and the two
      stay apart. */
  lemma SlowClockSplits(a: Content, b: Content) returns (nets: seq<Network>, issued: seq<set<Item>>, steps: seq<Step>)
    requires IdentityOf(a) != IdentityOf(b)
    ensures Run(PAIR, nets, issued, steps) && |steps| == 4
    ensures nets[4].inFlight == [] && |nets[4].devices| == 2
    ensures nets[4].devices[0].clipboard == Some(a) && nets[4].devices[1].clipboard == Some(b)
    ensures !KeepsAhead(nets, steps, 1, 0, 4)
  {
    var (back, hear) := (Copy(1, b, 1, 1), Deliver(0, false, 7, 7));
    SecondCopies(a, b);
    FirstIgnores(a, b);
    nets, issued, steps := BothHold(a);
    nets, issued, steps := OneMoreStep(nets, issued, steps, back, CopiedBack(a, b), {First(a), Second(b)});
    nets, issued, steps := OneMoreStep(nets, issued, steps, hear, Apart(a, b), {First(a), Second(b)});
    assert nets[2] == Arrived(a) && steps[2] == back;
    assert CopiesBack(nets[2], steps[2], 1);
  }
}
