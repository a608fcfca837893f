/** Properties of one whole frame: skipped units are invisible, which
    worker and depot orders a frame contains, and which depot runs the
    supply remediation and its build. */
module FrameProperties {
  import opened Host
  import opened Bot

  /** The units that pass the eligibility filter, in their original order. */
  function EligibleOnly(units: seq<Unit>): (r: seq<Unit>)
    ensures |r| <= |units|
    ensures forall u :: u in r <==> u in units && Eligible(u)
  {
    if |units| == 0 then []
    else if Eligible(units[0]) then [units[0]] + EligibleOnly(units[1..])
    else
      assert forall u :: u in units <==> u == units[0] || u in units[1..];
      EligibleOnly(units[1..])
  }

  /** A unit the filter skips neither receives a command nor influences the
      state or any other unit: dropping every such unit changes nothing. */
  lemma {:induction false} IneligibleUnitsAreIgnored(s: BotState, frame: int, latency: int, units: seq<Unit>)
    ensures Units(s, frame, latency, units) == Units(s, frame, latency, EligibleOnly(units))
    decreases |units|
  {
    if |units| > 0 {
      IneligibleUnitsAreIgnored(UnitStep(s, frame, latency, units[0]).next, frame, latency, units[1..]);
      if Eligible(units[0]) {
        var e := [units[0]] + EligibleOnly(units[1..]);
        assert e[0] == units[0] && e[1..] == EligibleOnly(units[1..]);
      } else {
        IneligibleUnitsAreIgnored(s, frame, latency, units[1..]);
      }
    }
  }

  /** The remediation of a frame fires exactly when some depot meets all of
      its conditions against the state the frame started from. */
  lemma {:induction false} RemediationIffSomeDepot(s: BotState, frame: int, latency: int, units: seq<Unit>)
    ensures Units(s, frame, latency, units).next != s <==>
      (exists i :: 0 <= i < |units| && Remediates(s, frame, units[i]))
    decreases |units|
  {
    if |units| > 0 && !Remediates(s, frame, units[0]) {
      var tail := units[1..];
      RemediationIffSomeDepot(s, frame, latency, tail);
      if exists i :: 0 <= i < |units| && Remediates(s, frame, units[i]) {
        var i :| 0 <= i < |units| && Remediates(s, frame, units[i]);
        assert tail[i - 1] == units[i];
      }
      if exists i :: 0 <= i < |tail| && Remediates(s, frame, tail[i]) {
        var i :| 0 <= i < |tail| && Remediates(s, frame, tail[i]);
        assert units[i + 1] == tail[i];
      }
    }
  }

  /** It is the first qualifying depot in enumeration order that runs the
      builder search; later depots find the cooldown already restarted. */
  lemma {:induction false} SearchByFirstDepot(s: BotState, frame: int, latency: int, units: seq<Unit>, i: nat)
    requires i < |units| && Remediates(s, frame, units[i])
    requires forall j :: 0 <= j < i ==> !Remediates(s, frame, units[j])
    ensures SearchSupplyBuilder(units[i].id) in Units(s, frame, latency, units).actions
    ensures Searches(Units(s, frame, latency, units).actions) == 1
    decreases i
  {
    if i > 0 {
      var tail := units[1..];
      assert !Remediates(s, frame, units[0]);
      assert tail[i - 1] == units[i];
      forall j | 0 <= j < i - 1 ensures !Remediates(s, frame, tail[j]) {
        assert tail[j] == units[j + 1];
      }
      SearchByFirstDepot(s, frame, latency, tail, i - 1);
    }
  }

  /** The worker branch gives `a` to the eligible worker `u`. */
  predicate OrdersWorker(u: Unit, a: Action) {
    Eligible(u) && u.isWorker && a in WorkerActions(u)
  }

  /** An eligible idle worker carrying gas or minerals. */
  predicate MustReturnCargo(u: Unit) {
    Eligible(u) && u.isWorker && u.idle && (u.cargo.gas || u.cargo.minerals)
  }

  /** An eligible idle worker carrying nothing, whose closest mineral field
      or refinery is `target`. */
  predicate MustGatherFrom(u: Unit, target: Option<UnitId>) {
    && Eligible(u) && u.isWorker && u.idle
    && !u.cargo.gas && !u.cargo.minerals && !u.cargo.powerUp
    && u.closestResource == target
  }

  /** Every worker order the worker branch gives an eligible worker appears
      among the frame's calls, whatever the state it meets. */
  lemma {:induction false} WorkerOrderReachesFrame(s: BotState, frame: int, latency: int, units: seq<Unit>, i: nat, order: Action)
    requires i < |units| && OrdersWorker(units[i], order)
    ensures order in Units(s, frame, latency, units).actions
    decreases i
  {
    if i > 0 {
      var tail := units[1..];
      assert tail[i - 1] == units[i];
      WorkerOrderReachesFrame(UnitStep(s, frame, latency, units[0]).next, frame, latency, tail, i - 1, order);
    }
  }

  /** A return or gather order among a frame's calls was given by the
      worker branch to some eligible worker of that frame: depots and
      skipped units never give one. */
  lemma {:induction false} WorkerOrderHasWorker(s: BotState, frame: int, latency: int, units: seq<Unit>, order: Action)
    requires WorkerOrder(order)
    ensures order !in Units(s, frame, latency, units).actions ||
      exists i :: 0 <= i < |units| && OrdersWorker(units[i], order)
    decreases |units|
  {
    if |units| > 0 {
      var first := UnitStep(s, frame, latency, units[0]);
      var tail := units[1..];
      WorkerOrderHasWorker(first.next, frame, latency, tail, order);
      if order !in first.actions && order in Units(first.next, frame, latency, tail).actions {
        var i :| 0 <= i < |tail| && OrdersWorker(tail[i], order);
        assert units[i + 1] == tail[i];
      }
    }
  }

  /** Both directions together. */
  lemma WorkerOrdersOfUnits(s: BotState, frame: int, latency: int, units: seq<Unit>, order: Action)
    requires WorkerOrder(order)
    ensures order in Units(s, frame, latency, units).actions <==>
      (exists i :: 0 <= i < |units| && OrdersWorker(units[i], order))
  {
    WorkerOrderHasWorker(s, frame, latency, units, order);
    if exists i :: 0 <= i < |units| && OrdersWorker(units[i], order) {
      var i :| 0 <= i < |units| && OrdersWorker(units[i], order);
      WorkerOrderReachesFrame(s, frame, latency, units, i, order);
    }
  }

  /** An eligible idle worker carrying gas or minerals is told to return its
      cargo in its frame, and a frame issues no other kind of return order. */
  lemma ReturnCargoInFrame(s: BotState, input: FrameInput, x: UnitId)
    requires GateDefined(input)
    ensures ReturnCargo(x) in Frame(s, input).actions <==>
      Acts(input) && (exists u :: u in input.units && u.id == x && MustReturnCargo(u))
  {
    if Acts(input) {
      WorkerOrdersOfUnits(s, input.frameCount, input.latencyFrames, input.units, ReturnCargo(x));
    }
  }

  /** An eligible idle worker with nothing to carry is told to gather from
      the closest mineral field or refinery the host reported for it. */
  lemma GatherInFrame(s: BotState, input: FrameInput, x: UnitId, target: Option<UnitId>)
    requires GateDefined(input)
    ensures Gather(x, target) in Frame(s, input).actions <==>
      Acts(input) && (exists u :: u in input.units && u.id == x && MustGatherFrom(u, target))
  {
    if Acts(input) {
      WorkerOrdersOfUnits(s, input.frameCount, input.latencyFrames, input.units, Gather(x, target));
    }
  }

  /** An eligible, idle, non-worker resource depot: the units told to train. */
  predicate MustTrain(u: Unit) {
    Eligible(u) && !u.isWorker && u.isResourceDepot && u.idle
  }

  /** Every depot told to train appears with its `Train` call in the frame's
      calls, whatever the state it meets. */
  lemma {:induction false} TrainReachesFrame(s: BotState, frame: int, latency: int, units: seq<Unit>, i: nat)
    requires i < |units| && MustTrain(units[i])
    ensures Train(units[i].id, units[i].race.worker) in Units(s, frame, latency, units).actions
    decreases i
  {
    if i > 0 {
      var tail := units[1..];
      assert tail[i - 1] == units[i];
      TrainReachesFrame(UnitStep(s, frame, latency, units[0]).next, frame, latency, tail, i - 1);
    }
  }

  /** Every `Train` call of a frame comes from a depot told to train, for
      that depot and its race's worker. */
  lemma {:induction false} TrainHasDepot(s: BotState, frame: int, latency: int, units: seq<Unit>, x: UnitId, w: UnitTypeId)
    ensures Train(x, w) !in Units(s, frame, latency, units).actions ||
      exists i :: 0 <= i < |units| && units[i].id == x && units[i].race.worker == w && MustTrain(units[i])
    decreases |units|
  {
    if |units| > 0 {
      var first := UnitStep(s, frame, latency, units[0]);
      var tail := units[1..];
      TrainHasDepot(first.next, frame, latency, tail, x, w);
      if Train(x, w) !in first.actions && Train(x, w) in Units(first.next, frame, latency, tail).actions {
        var i :| 0 <= i < |tail| && tail[i].id == x && tail[i].race.worker == w && MustTrain(tail[i]);
        assert units[i + 1] == tail[i];
      }
    }
  }

  /** `Train(x, w)` is in a frame's calls exactly when the frame passes its
      gate and unit `x` is an eligible idle depot, not a worker, whose race's
      worker is `w`. */
  lemma TrainInFrame(s: BotState, input: FrameInput, x: UnitId, w: UnitTypeId)
    requires GateDefined(input)
    ensures Train(x, w) in Frame(s, input).actions <==>
      Acts(input) && (exists u :: u in input.units && u.id == x && u.race.worker == w && MustTrain(u))
  {
    if Acts(input) {
      var units := input.units;
      TrainHasDepot(s, input.frameCount, input.latencyFrames, units, x, w);
      if exists u :: u in units && u.id == x && u.race.worker == w && MustTrain(u) {
        var u :| u in units && u.id == x && u.race.worker == w && MustTrain(u);
        var i :| 0 <= i < |units| && units[i] == u;
        TrainReachesFrame(s, input.frameCount, input.latencyFrames, units, i);
      }
    }
  }

  /** Unit `i` is the first of the list to meet every remediation condition. */
  predicate FirstRemediating(s: BotState, frame: int, units: seq<Unit>, i: int) {
    && 0 <= i < |units|
    && Remediates(s, frame, units[i])
    && forall j :: 0 <= j < i ==> !Remediates(s, frame, units[j])
  }

  /** When no depot of the frame remediates, the frame has no build order. */
  lemma NoRemediationNoBuild(s: BotState, frame: int, latency: int, units: seq<Unit>)
    requires forall i :: 0 <= i < |units| ==> !Remediates(s, frame, units[i])
    ensures forall a :: a in Units(s, frame, latency, units).actions ==> !a.Build?
  {
    RemediationIffSomeDepot(s, frame, latency, units);
    CountZero(Units(s, frame, latency, units).actions, IsBuild);
  }

  /** The one build order a frame can hold is the one of its first
      remediating depot: the builder the host found for it builds the race's
      supply provider at the tile found. */
  lemma {:induction false} BuildByFirstDepot(s: BotState, frame: int, latency: int, units: seq<Unit>, i: nat, order: Action)
    requires FirstRemediating(s, frame, units, i) && order.Build?
    ensures order in Units(s, frame, latency, units).actions <==> BuildFor(units[i], order)
    decreases i
  {
    var u := units[0];
    var first := UnitStep(s, frame, latency, u);
    var tail := units[1..];
    var rest := Units(first.next, frame, latency, tail);
    if i == 0 {
      assert first.next == BotState(frame);
      CountZero(rest.actions, IsBuild);
      if BuildFor(u, order) {
        CountZero(first.actions, IsBuild);
        var a :| a in first.actions && a.Build?;
        assert BuildFor(u, a);
        assert a == order;
      }
    } else {
      assert first.next == s;
      CountZero(first.actions, IsBuild);
      assert tail[i - 1] == units[i];
      forall j | 0 <= j < i - 1 ensures !Remediates(s, frame, tail[j]) {
        assert tail[j] == units[j + 1];
      }
      BuildByFirstDepot(s, frame, latency, tail, i - 1, order);
    }
  }

  /** A frame holds at most one build order, and `Build(b, p, t)` is among
      its calls exactly when the frame passes its gate and its first
      remediating depot got builder `b` and valid tile `t` from the host and
      `p` is that depot's race's supply provider. */
  lemma BuildInFrame(s: BotState, input: FrameInput, b: UnitId, p: UnitTypeId, t: TilePosition)
    requires GateDefined(input)
    ensures Builds(Frame(s, input).actions) <= 1
    ensures Build(b, p, t) in Frame(s, input).actions <==>
      Acts(input) && (exists i :: FirstRemediating(s, input.frameCount, input.units, i)
                                  && BuildFor(input.units[i], Build(b, p, t)))
  {
    if Acts(input) {
      var units := input.units;
      var frame := input.frameCount;
      if exists i :: 0 <= i < |units| && Remediates(s, frame, units[i]) {
        var k :| 0 <= k < |units| && Remediates(s, frame, units[k]);
        var i := FirstOf(s, frame, units, k);
        BuildByFirstDepot(s, frame, input.latencyFrames, units, i, Build(b, p, t));
      } else {
        NoRemediationNoBuild(s, frame, input.latencyFrames, units);
      }
    }
  }

  /** The least index at or below `k` whose unit remediates. */
  function FirstOf(s: BotState, frame: int, units: seq<Unit>, k: nat): (i: nat)
    requires k < |units| && Remediates(s, frame, units[k])
    ensures i <= k && FirstRemediating(s, frame, units, i)
    decreases k
  {
    if forall j :: 0 <= j < k ==> !Remediates(s, frame, units[j]) then k
    else
      var j :| 0 <= j < k && Remediates(s, frame, units[j]);
      FirstOf(s, frame, units, j)
  }

  /** A frame changes the state exactly when it passes the gate and one of
      its depots meets every remediation condition. */
  lemma FrameRemediatesIff(s: BotState, input: FrameInput)
    requires GateDefined(input)
    ensures Frame(s, input).next != s <==>
      Acts(input) && (exists i :: 0 <= i < |input.units| && Remediates(s, input.frameCount, input.units[i]))
  {
    if Acts(input) {
      RemediationIffSomeDepot(s, input.frameCount, input.latencyFrames, input.units);
    }
  }
}
