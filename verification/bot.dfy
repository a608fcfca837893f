/** The per-frame decision loop `BotAIModule::onFrame`.

    The only state that outlives a frame is the supply-check timestamp
    `lastChecked`; a frame maps that state and a snapshot of the host to the
    next state and the list of calls the loop makes on the host, in order.
 */
module Bot {
  import opened Host

  /** Frames that must separate two supply remediations (strictly more). */
  const SupplyCooldown: int := 400

  /** Extra frames the build-location box stays on screen after the build time. */
  const BuildBoxExtraFrames: int := 100

  datatype BotState = BotState(lastChecked: int)

  /** `static int lastChecked = 0`. */
  const Initial: BotState := BotState(0)

  /** A call the loop makes on the host. `Train` and `Gather` are recorded
      whether or not the host accepts them. `train`'s result is an input
      (`trainOk`); `gather`'s result is not modelled, because it only
      controls error printing, which is not part of this model.
      `SearchSupplyBuilder` is the rate-limited closest-builder query of the
      supply remediation; the two `Show` actions are the overlay events the
      loop registers, with the number of frames they stay on screen. */
  datatype Action =
    | ReturnCargo(unit: UnitId)
    | Gather(unit: UnitId, target: Option<UnitId>)
    | Train(unit: UnitId, unitType: UnitTypeId)
    | ShowError(at: Position, error: HostError, frames: int)
    | SearchSupplyBuilder(depot: UnitId)
    | ShowBuildBox(tile: TilePosition, unitType: UnitTypeId, frames: int)
    | Build(unit: UnitId, unitType: UnitTypeId, tile: TilePosition)

  /** The outcome of handling a frame, or a prefix of its units. */
  datatype Step = Step(next: BotState, actions: seq<Action>)

  // ---------------------------------------------------------------------
  // Action classifiers and counts
  // ---------------------------------------------------------------------

  /** The orders only the worker branch gives. */
  predicate WorkerOrder(a: Action) {
    a.ReturnCargo? || a.Gather?
  }

  predicate IsSearch(a: Action) {
    a.SearchSupplyBuilder?
  }

  predicate IsBuild(a: Action) {
    a.Build?
  }

  /** Number of actions in `acts` of the kind `p` selects. */
  function Count(acts: seq<Action>, p: Action -> bool): nat
  {
    if |acts| == 0 then 0
    else (if p(acts[0]) then 1 else 0) + Count(acts[1..], p)
  }

  lemma {:induction false} CountAppend(a: seq<Action>, b: seq<Action>, p: Action -> bool)
    ensures Count(a + b, p) == Count(a, p) + Count(b, p)
  {
    if |a| == 0 {
      assert a + b == b;
    } else {
      assert (a + b)[1..] == a[1..] + b;
      CountAppend(a[1..], b, p);
    }
  }

  lemma {:induction false} CountZero(acts: seq<Action>, p: Action -> bool)
    ensures Count(acts, p) == 0 <==> forall a :: a in acts ==> !p(a)
  {
    if |acts| > 0 {
      assert acts[0] in acts;
      CountZero(acts[1..], p);
      assert forall a :: a in acts <==> a == acts[0] || a in acts[1..];
    }
  }

  /** Number of supply-builder searches in a list of actions. */
  function Searches(acts: seq<Action>): nat {
    Count(acts, IsSearch)
  }

  /** Number of build orders in a list of actions. */
  function Builds(acts: seq<Action>): nat {
    Count(acts, IsBuild)
  }

  // ---------------------------------------------------------------------
  // Frame gate
  // ---------------------------------------------------------------------

  /** The modulo is only evaluated once the game runs and a player is
      controlled, and it must not divide by zero then. */
  predicate GateDefined(input: FrameInput) {
    input.paused || !input.hasSelf || input.latencyFrames != 0
  }

  /** The frame passes both early returns. */
  predicate Acts(input: FrameInput)
    requires GateDefined(input)
  {
    !input.paused && input.hasSelf && input.frameCount % input.latencyFrames == 0
  }

  // ---------------------------------------------------------------------
  // Eligibility filter
  // ---------------------------------------------------------------------

  /** The four `continue` guards, in the order the loop evaluates them. */
  datatype Skip = Gone | Disabled | NotActionable | Incomplete

  /** A unit passes every guard of the filter. */
  predicate Eligible(u: Unit) {
    var st := u.status;
    && st.alive
    && !st.lockedDown && !st.maelstrommed && !st.stasised
    && !st.loaded && st.powered && !st.stuck
    && st.completed && !st.constructing
  }

  /** The first guard that skips the unit, if any. All four guards only
      `continue` and the status queries have no side effects, so the order
      is not observable in the calls a frame makes; the reason records which
      guard of the source fires first. */
  function SkipReason(u: Unit): (r: Option<Skip>)
    ensures r == Some(Gone) <==> !u.status.alive
    ensures r == Some(Disabled) <==>
      u.status.alive && (u.status.lockedDown || u.status.maelstrommed || u.status.stasised)
    ensures r == Some(NotActionable) ==>
      u.status.alive && !u.status.lockedDown && !u.status.maelstrommed && !u.status.stasised
    ensures r == Some(NotActionable) ==> u.status.loaded || !u.status.powered || u.status.stuck
    ensures r == Some(Incomplete) ==> !u.status.completed || u.status.constructing
    ensures r == Some(Incomplete) ==>
      u.status.alive && !u.status.lockedDown && !u.status.maelstrommed && !u.status.stasised
      && !u.status.loaded && u.status.powered && !u.status.stuck
    ensures r == None <==> Eligible(u)
  {
    var st := u.status;
    if !st.alive then Some(Gone)
    else if st.lockedDown || st.maelstrommed || st.stasised then Some(Disabled)
    else if st.loaded || !st.powered || st.stuck then Some(NotActionable)
    else if !st.completed || st.constructing then Some(Incomplete)
    else None
  }

  // ---------------------------------------------------------------------
  // Worker branch
  // ---------------------------------------------------------------------

  /** An idle worker returns its cargo, or gathers from the closest mineral
      field or refinery unless it holds a power-up. */
  function WorkerActions(u: Unit): (acts: seq<Action>)
    ensures |acts| <= 1
    ensures acts == [ReturnCargo(u.id)] <==> u.idle && (u.cargo.gas || u.cargo.minerals)
    ensures acts == [Gather(u.id, u.closestResource)] <==>
      u.idle && !u.cargo.gas && !u.cargo.minerals && !u.cargo.powerUp
    ensures acts == [] <==> !u.idle || (!u.cargo.gas && !u.cargo.minerals && u.cargo.powerUp)
    ensures forall a :: a in acts ==> WorkerOrder(a)
  {
    if !u.idle then []
    else if u.cargo.gas || u.cargo.minerals then [ReturnCargo(u.id)]
    else if !u.cargo.powerUp then [Gather(u.id, u.closestResource)]
    else []
  }

  // ---------------------------------------------------------------------
  // Resource-depot branch
  // ---------------------------------------------------------------------

  /** `a` is the build order the remediation of depot `u` gives: the builder
      the host found builds the race's supply provider at the tile found. */
  predicate BuildFor(u: Unit, a: Action) {
    && a.Build?
    && u.depot.supplyBuilder == Some(Builder(a.unit, Some(a.tile)))
    && a.unitType == u.race.supplyProvider
  }

  /** All conditions under which a depot's failed training starts a supply
      remediation, stated in one place. */
  predicate Remediates(s: BotState, frame: int, u: Unit) {
    && Eligible(u)
    && !u.isWorker
    && u.isResourceDepot
    && u.idle
    && !u.depot.trainOk
    && u.depot.lastError == InsufficientSupply
    && s.lastChecked + SupplyCooldown < frame
    && u.depot.incompleteSupply == 0
  }

  /** The box overlay and the build order, issued only when the search found
      a builder and the host found a valid location near it. */
  function BuildOrders(race: Race, builder: Option<Builder>): (acts: seq<Action>)
    ensures acts != [] <==> builder.Some? && builder.value.buildLocation.Some?
    ensures acts != [] ==>
      acts[0] == ShowBuildBox(builder.value.buildLocation.value, race.supplyProvider,
                              race.supplyBuildTime + BuildBoxExtraFrames)
    ensures acts != [] ==>
      acts[|acts| - 1] == Build(builder.value.id, race.supplyProvider, builder.value.buildLocation.value)
    ensures forall a :: a in acts ==> a.ShowBuildBox? || a.Build?
    ensures forall a :: a in acts && a.Build? ==>
      builder == Some(Builder(a.unit, Some(a.tile))) && a.unitType == race.supplyProvider
    ensures Builds(acts) == (if acts == [] then 0 else 1)
  {
    match builder
    case None => []
    case Some(b) =>
      match b.buildLocation
      case None => []
      case Some(tile) =>
        var acts := [ShowBuildBox(tile, race.supplyProvider, race.supplyBuildTime + BuildBoxExtraFrames),
                     Build(b.id, race.supplyProvider, tile)];
        CountAppend(acts[..1], acts[1..], IsBuild);
        CountZero(acts[..1], IsBuild);
        assert acts[..1] + acts[1..] == acts;
        acts
  }

  /** The calls of a supply remediation at depot `u`: the closest-builder
      search, then the box overlay and build order when a site was found. */
  function Remediation(u: Unit): (acts: seq<Action>)
    ensures |acts| > 0 && acts[0] == SearchSupplyBuilder(u.id)
    ensures Searches(acts) == 1
    ensures Builds(acts) ==
      (if u.depot.supplyBuilder.Some? && u.depot.supplyBuilder.value.buildLocation.Some? then 1 else 0)
    ensures forall a :: a in acts ==> a.SearchSupplyBuilder? || a.ShowBuildBox? || a.Build?
    ensures forall a :: a in acts && a.Build? ==> BuildFor(u, a)
  {
    var builds := BuildOrders(u.race, u.depot.supplyBuilder);
    CountAppend([SearchSupplyBuilder(u.id)], builds, IsSearch);
    CountAppend([SearchSupplyBuilder(u.id)], builds, IsBuild);
    CountZero(builds, IsSearch);
    CountZero([SearchSupplyBuilder(u.id)], IsBuild);
    [SearchSupplyBuilder(u.id)] + builds
  }

  /** An idle depot trains a worker; when that fails the error is shown for
      one latency window, and a supply shortage may start a remediation. */
  function DepotStep(s: BotState, frame: int, latency: int, u: Unit): (r: Step)
    ensures !u.idle ==> r == Step(s, [])
    ensures u.idle ==> |r.actions| > 0 && r.actions[0] == Train(u.id, u.race.worker)
    ensures u.idle && u.depot.trainOk ==> r == Step(s, [Train(u.id, u.race.worker)])
    ensures ShowError(u.position, u.depot.lastError, latency) in r.actions <==>
      u.idle && !u.depot.trainOk
    ensures r.next != s ==> r.next.lastChecked == frame && s.lastChecked + SupplyCooldown < frame
    ensures Searches(r.actions) == (if r.next == s then 0 else 1)
    ensures Builds(r.actions) ==
      (if r.next != s && u.depot.supplyBuilder.Some? && u.depot.supplyBuilder.value.buildLocation.Some?
       then 1 else 0)
    ensures r.next != s ==> SearchSupplyBuilder(u.id) in r.actions
    ensures forall a :: a in r.actions ==> !WorkerOrder(a)
    ensures forall a :: a in r.actions && a.Train? ==> a == Train(u.id, u.race.worker)
    ensures forall a :: a in r.actions && a.Build? ==> BuildFor(u, a)
  {
    if !u.idle then Step(s, [])
    else
      var trained := [Train(u.id, u.race.worker)];
      CountZero(trained, IsSearch);
      CountZero(trained, IsBuild);
      if u.depot.trainOk then Step(s, trained)
      else
        var shown := trained + [ShowError(u.position, u.depot.lastError, latency)];
        CountZero(shown, IsSearch);
        CountZero(shown, IsBuild);
        if u.depot.lastError == InsufficientSupply
           && s.lastChecked + SupplyCooldown < frame
           && u.depot.incompleteSupply == 0
        then
          var acts := shown + Remediation(u);
          CountAppend(shown, Remediation(u), IsSearch);
          CountAppend(shown, Remediation(u), IsBuild);
          Step(BotState(frame), acts)
        else
          Step(s, shown)
  }

  // ---------------------------------------------------------------------
  // One unit, a list of units, a frame
  // ---------------------------------------------------------------------

  /** Filter, then dispatch by role: the worker test comes first and the
      depot branch is its `else`. */
  function UnitStep(s: BotState, frame: int, latency: int, u: Unit): (r: Step)
    ensures !Eligible(u) ==> r == Step(s, [])
    ensures Eligible(u) && u.isWorker ==> r == Step(s, WorkerActions(u))
    ensures !u.isWorker && !u.isResourceDepot ==> r == Step(s, [])
    ensures r.next != s <==> Remediates(s, frame, u)
    ensures Remediates(s, frame, u) ==> r.next.lastChecked == frame
    ensures Searches(r.actions) == (if Remediates(s, frame, u) then 1 else 0)
    ensures Remediates(s, frame, u) ==> SearchSupplyBuilder(u.id) in r.actions
    ensures forall a :: WorkerOrder(a) ==>
      (a in r.actions <==> Eligible(u) && u.isWorker && a in WorkerActions(u))
    ensures Train(u.id, u.race.worker) in r.actions <==>
      Eligible(u) && !u.isWorker && u.isResourceDepot && u.idle
    ensures Builds(r.actions) ==
      (if Remediates(s, frame, u) && u.depot.supplyBuilder.Some?
          && u.depot.supplyBuilder.value.buildLocation.Some?
       then 1 else 0)
    ensures forall a :: a in r.actions && a.Train? ==> a == Train(u.id, u.race.worker)
    ensures forall a :: a in r.actions && a.Build? ==> BuildFor(u, a)
    ensures Builds(r.actions) <= Searches(r.actions)
  {
    if SkipReason(u).Some? then Step(s, [])
    else if u.isWorker then
      CountZero(WorkerActions(u), IsSearch);
      CountZero(WorkerActions(u), IsBuild);
      Step(s, WorkerActions(u))
    else if u.isResourceDepot then
      var r := DepotStep(s, frame, latency, u);
      assert Remediates(s, frame, u) ==> r.next == BotState(frame);
      r
    else Step(s, [])
  }

  /** The units handled in enumeration order, threading the state. */
  function Units(s: BotState, frame: int, latency: int, units: seq<Unit>): (r: Step)
    ensures s.lastChecked <= r.next.lastChecked
    ensures r.next == s || (r.next.lastChecked == frame && s.lastChecked + SupplyCooldown < frame)
    ensures Searches(r.actions) == (if r.next == s then 0 else 1)
    ensures Builds(r.actions) <= Searches(r.actions)
    decreases |units|
  {
    if |units| == 0 then Step(s, [])
    else
      var first := UnitStep(s, frame, latency, units[0]);
      var rest := Units(first.next, frame, latency, units[1..]);
      CountAppend(first.actions, rest.actions, IsSearch);
      CountAppend(first.actions, rest.actions, IsBuild);
      Step(rest.next, first.actions + rest.actions)
  }

  /** `onFrame`: the early returns, then every owned unit. */
  function Frame(s: BotState, input: FrameInput): (r: Step)
    requires GateDefined(input)
    ensures !Acts(input) ==> r == Step(s, [])
    ensures s.lastChecked <= r.next.lastChecked
    ensures r.next != s ==> r.next.lastChecked == input.frameCount
    ensures r.next != s ==> s.lastChecked + SupplyCooldown < input.frameCount
    ensures Searches(r.actions) <= 1
    ensures Searches(r.actions) == 1 <==> r.next != s
    ensures Builds(r.actions) <= 1
  {
    if input.paused || !input.hasSelf then Step(s, [])
    else if input.frameCount % input.latencyFrames != 0 then Step(s, [])
    else Units(s, input.frameCount, input.latencyFrames, input.units)
  }
}
