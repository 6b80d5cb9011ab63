/** Once nothing is in flight every device has had the newest copy, and holds it still unless it
    made a copy stamped no later than what it held. With clocks that never fall behind what the
    copying device holds, all devices hold the newest copy. */
module Convergence {
  import opened Wrappers
  import opened Content
  import opened Sync
  import opened SyncNet
  import opened SyncSteps

  // ---- Runs ----

  /** A run of devices with distinct IDs. */
  ghost predicate Run(ids: seq<DeviceId>, nets: seq<Network>, issued: seq<set<Item>>, steps: seq<Step>) {
    && (forall i, j :: 0 <= i < j < |ids| ==> ids[i] != ids[j])
    && |nets| == |issued| == |steps| + 1
    && nets[0] == Start(ids) && issued[0] == {}
    && forall k {:trigger steps[k]} :: 0 <= k < |steps| ==>
         && Fair(nets[k], issued[k], steps[k])
         && nets[k + 1] == After(nets[k], steps[k])
         && issued[k + 1] == Issued(nets[k], issued[k], steps[k])
  }

  /** So what `SyncNet` and `Dedup` say of any run holds of these. */
  lemma RunIsAny(ids: seq<DeviceId>, nets: seq<Network>, issued: seq<set<Item>>, steps: seq<Step>)
    requires Run(ids, nets, issued, steps)
    ensures AnyRun(ids, nets, steps)
  {
  }

  /** In steps `j` to `k`, device `i` doesn't copy back. */
  ghost predicate KeepsAhead(nets: seq<Network>, steps: seq<Step>, i: nat, j: nat, k: nat)
    requires j <= k <= |steps| < |nets| && forall m {:trigger steps[m]} :: 0 <= m < |steps| ==>
        Possible(nets[m], steps[m])
  {
    forall m {:trigger steps[m]} :: j <= m < k ==> !CopiesBack(nets[m], steps[m], i)
  }

  /** What each device has had after `k` steps. */
  ghost function Had(nets: seq<Network>, issued: seq<set<Item>>, k: nat): (had: seq<set<Item>>)
    requires k < |nets| == |issued| && forall m :: 0 <= m < |nets| ==> |nets[m].devices| == |nets[0].devices|
    ensures |had| == |nets[k].devices|
  {
    HadNow(nets[k], issued[k], if k == 0 then seq(|nets[0].devices|, _ => {}) else Had(nets, issued, k - 1))
  }

  lemma {:induction false} SameCount(ids: seq<DeviceId>, nets: seq<Network>, issued: seq<set<Item>>, steps: seq<Step>,
                                     k: nat)
    requires Run(ids, nets, issued, steps) && k < |nets|
    ensures |nets[k].devices| == |ids|
  {
    if k > 0 {
      SameCount(ids, nets, issued, steps, k - 1);
      StepKeepsCount(nets[k - 1], steps[k - 1]);
    }
  }

  lemma StepKeepsCount(net: Network, step: Step)
    requires Possible(net, step)
    ensures |After(net, step).devices| == |net.devices|
  {
  }

  lemma AllCounts(ids: seq<DeviceId>, nets: seq<Network>, issued: seq<set<Item>>, steps: seq<Step>)
    requires Run(ids, nets, issued, steps)
    ensures forall m :: 0 <= m < |nets| ==> |nets[m].devices| == |ids|
  {
    forall m | 0 <= m < |nets| ensures |nets[m].devices| == |ids| {
      SameCount(ids, nets, issued, steps, m);
    }
  }

  lemma {:induction false} RunKeepsInv(ids: seq<DeviceId>, nets: seq<Network>, issued: seq<set<Item>>,
                                       steps: seq<Step>, k: nat)
    requires Run(ids, nets, issued, steps) && k < |nets|
    requires forall m :: 0 <= m < |nets| ==> |nets[m].devices| == |ids|
    ensures Inv(nets[k], issued[k], Had(nets, issued, k))
  {
    if k > 0 {
      RunKeepsInv(ids, nets, issued, steps, k - 1);
      StepKeepsInv(nets[k - 1], issued[k - 1], Had(nets, issued, k - 1), steps[k - 1]);
    }
  }

  /** What a device has had, it had at some moment. */
  lemma {:induction false} HadThen(ids: seq<DeviceId>, nets: seq<Network>, issued: seq<set<Item>>, steps: seq<Step>,
                                   k: nat, i: nat, x: Item)
    returns (j: nat)
    requires Run(ids, nets, issued, steps) && k < |nets| && i < |ids|
    requires forall m :: 0 <= m < |nets| ==> |nets[m].devices| == |ids|
    requires x in Had(nets, issued, k)[i]
    ensures j <= k && x in issued[j] && Has(nets[j].devices[i].engine, x)
  {
    if x in Having(nets[k].devices[i].engine, issued[k]) {
      j := k;
    } else {
      j := HadThen(ids, nets, issued, steps, k - 1, i, x);
    }
  }

  /** What a device has at some moment it goes on having, unless it copies back; and as long as it
      does, delivering the item again, however often and long after, writes nothing and changes
      nothing it holds. */
  lemma {:induction false} HeldForGood(ids: seq<DeviceId>, nets: seq<Network>, issued: seq<set<Item>>, steps: seq<Step>,
                                       i: nat, x: Item, j: nat, k: nat)
    requires Run(ids, nets, issued, steps) && j <= k < |nets| && i < |ids|
    requires |nets[j].devices| == |ids| && x in issued[j] && Has(nets[j].devices[i].engine, x)
    requires KeepsAhead(nets, steps, i, j, k)
    ensures |nets[k].devices| == |ids| && x in issued[k] && Has(nets[k].devices[i].engine, x)
    ensures k < |steps| && steps[k].Deliver? && nets[k].inFlight[steps[k].k] == Message(i, x) ==>
      && |nets[k + 1].devices| == |ids|
      && var (d, d') := (nets[k].devices[i], nets[k + 1].devices[i]);
         d'.clipboard == d.clipboard && d'.writes == d.writes && d'.engine.current == d.engine.current
    decreases k - j
  {
    AllCounts(ids, nets, issued, steps);
    if j < k {
      HeldForGood(ids, nets, issued, steps, i, x, j, k - 1);
      RunKeepsInv(ids, nets, issued, steps, k - 1);
      StepKeepsHeld(nets[k - 1], issued[k - 1], Had(nets, issued, k - 1), steps[k - 1], i, x);
    }
    if k < |steps| {
      RunKeepsInv(ids, nets, issued, steps, k);
      RedeliveryChangesNothing(nets[k], issued[k], Had(nets, issued, k), steps[k], i, x);
    }
  }

  lemma RedeliveryChangesNothing(net: Network, issued: set<Item>, had: seq<set<Item>>, step: Step, i: nat, x: Item)
    requires Inv(net, issued, had) && Possible(net, step) && i < |net.devices|
    requires x in issued && Has(net.devices[i].engine, x)
    ensures |After(net, step).devices| == |net.devices|
    ensures step.Deliver? && net.inFlight[step.k] == Message(i, x) ==>
      var (d, d') := (net.devices[i], After(net, step).devices[i]);
      d'.clipboard == d.clipboard && d'.writes == d.writes && d'.engine.current == d.engine.current
  {
    StepKeepsCount(net, step);
    if step.Deliver? && net.inFlight[step.k] == Message(i, x) {
      assert Message(i, x) in net.inFlight;
      var net1 := net.(inFlight := Left(net.inFlight, step.k, step.keep));
      ReceiveIsQuiet(net1, i, x, step.id, step.now);
      ReceiveEffect(net.devices[i], issued, had[i], x, net1, i, step.id, step.now);
    }
  }

  // ---- The newest copy ----

  /** `x` is the newest of the copies made. */
  ghost predicate IsNewest(x: Item, issued: set<Item>) {
    x in issued && forall y :: y in issued ==> y == x || Before(StampOf(y), StampOf(x))
  }

  lemma {:induction false} SomeNewest(issued: set<Item>) returns (x: Item)
    requires ItemsOk(issued) && issued != {}
    ensures IsNewest(x, issued)
    decreases |issued|
  {
    x :| x in issued;
    if issued != {x} {
      var y := SomeNewest(issued - {x});
      if Before(StampOf(x), StampOf(y)) {
        x := y;
      } else {
        assert Before(StampOf(y), StampOf(x));
      }
    }
  }

  /** The device holds `x`: its engine and its clipboard. */
  ghost predicate Holds(net: Network, i: nat, x: Item)
    requires i < |net.devices|
  {
    var d := net.devices[i];
    && d.engine.current == Some(CurrentOf(x))
    && d.clipboard.Some? && IdentityOf(d.clipboard.value) == IdentityOf(x.content)
  }

  /** To have the newest copy is to hold it. */
  lemma HasNewestIff(net: Network, issued: set<Item>, had: seq<set<Item>>, i: nat, x: Item)
    requires Inv(net, issued, had) && i < |net.devices| && IsNewest(x, issued)
    ensures Has(net.devices[i].engine, x) <==> Holds(net, i, x)
  {
    var d := net.devices[i];
    assert DeviceOk(d, issued, had[i]);
    if Has(d.engine, x) {
      var y :| y in issued && d.engine.current.value == CurrentOf(y);
    }
  }

  lemma {:induction false} IssuedGrows(ids: seq<DeviceId>, nets: seq<Network>, issued: seq<set<Item>>,
                                       steps: seq<Step>, j: nat, k: nat)
    requires Run(ids, nets, issued, steps) && j <= k < |nets|
    ensures issued[j] <= issued[k]
    decreases k - j
  {
    if j < k {
      IssuedGrows(ids, nets, issued, steps, j, k - 1);
      assert issued[k] == Issued(nets[k - 1], issued[k - 1], steps[k - 1]);
    }
  }

  /** Whatever the clocks: once nothing is in flight, each device has at some moment had the newest
      copy; and from the last such moment `j` on, it holds it exactly if it never copied back. */
  lemma EachHadTheNewest(ids: seq<DeviceId>, nets: seq<Network>, issued: seq<set<Item>>, steps: seq<Step>, k: nat,
                         newest: Item, i: nat)
    returns (j: nat)
    requires Run(ids, nets, issued, steps) && k < |nets| && i < |ids|
    requires nets[k].inFlight == [] && IsNewest(newest, issued[k])
    ensures j <= k && |nets[j].devices| == |nets[k].devices| == |ids|
    ensures newest in issued[j] && Holds(nets[j], i, newest)
    ensures Holds(nets[k], i, newest) <==> KeepsAhead(nets, steps, i, j, k)
  {
    AllCounts(ids, nets, issued, steps);
    RunKeepsInv(ids, nets, issued, steps, k);
    assert newest in Had(nets, issued, k)[i];
    var first := HadThen(ids, nets, issued, steps, k, i, newest);
    j := LastHolding(ids, nets, issued, steps, first, k, i, newest);
    if KeepsAhead(nets, steps, i, j, k) {
      RunKeepsInv(ids, nets, issued, steps, j);
      HasNow(ids, nets, issued, steps, j, k, i, newest);
      HeldForGood(ids, nets, issued, steps, i, newest, j, k);
      HasNow(ids, nets, issued, steps, k, k, i, newest);
    }
  }

  lemma HasNow(ids: seq<DeviceId>, nets: seq<Network>, issued: seq<set<Item>>, steps: seq<Step>, j: nat, k: nat,
               i: nat, x: Item)
    requires Run(ids, nets, issued, steps) && j <= k < |nets| && i < |ids| && IsNewest(x, issued[k]) && x in issued[j]
    requires forall m :: 0 <= m < |nets| ==> |nets[m].devices| == |ids|
    ensures Has(nets[j].devices[i].engine, x) <==> Holds(nets[j], i, x)
  {
    RunKeepsInv(ids, nets, issued, steps, j);
    IssuedGrows(ids, nets, issued, steps, j, k);
    HasNewestIff(nets[j], issued[j], Had(nets, issued, j), i, x);
  }

  /** The last moment from `first` to `k` at which the device holds `x`. */
  lemma {:induction false} LastHolding(ids: seq<DeviceId>, nets: seq<Network>, issued: seq<set<Item>>, steps: seq<Step>,
                                       first: nat, k: nat, i: nat, x: Item) returns (j: nat)
    requires Run(ids, nets, issued, steps) && first <= k < |nets| && i < |ids| && IsNewest(x, issued[k])
    requires forall m :: 0 <= m < |nets| ==> |nets[m].devices| == |ids|
    requires x in issued[first] && Has(nets[first].devices[i].engine, x)
    ensures first <= j <= k && x in issued[j] && Holds(nets[j], i, x)
    ensures forall m :: j < m <= k ==> !Holds(nets[m], i, x)
  {
    HasNow(ids, nets, issued, steps, first, k, i, x);
    j := k;
    while !Holds(nets[j], i, x)
      invariant first <= j <= k
      invariant forall m :: j < m <= k ==> !Holds(nets[m], i, x)
      decreases j
    {
      assert j != first;
      j := j - 1;
    }
    IssuedGrows(ids, nets, issued, steps, first, j);
  }

  /** Convergence: if no device ever copies with a clock behind the stamp of what it holds, then at
      every moment in which nothing is in flight and something has been copied, there is a newest
      copy, and every device holds it. */
  lemma DevicesConverge(ids: seq<DeviceId>, nets: seq<Network>, issued: seq<set<Item>>, steps: seq<Step>, k: nat)
    returns (newest: Item)
    requires Run(ids, nets, issued, steps) && k < |nets|
    requires forall i :: 0 <= i < |ids| ==> KeepsAhead(nets, steps, i, 0, k)
    requires nets[k].inFlight == [] && issued[k] != {}
    ensures IsNewest(newest, issued[k]) && |nets[k].devices| == |ids|
    ensures forall i :: 0 <= i < |ids| ==> Holds(nets[k], i, newest)
  {
    AllCounts(ids, nets, issued, steps);
    RunKeepsInv(ids, nets, issued, steps, k);
    newest := SomeNewest(issued[k]);
    forall i | 0 <= i < |ids| ensures Holds(nets[k], i, newest) {
      var j := EachHadTheNewest(ids, nets, issued, steps, k, newest, i);
      assert KeepsAhead(nets, steps, i, 0, k);
    }
  }
}
