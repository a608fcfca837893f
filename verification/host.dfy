/** The part of the game host (BWAPI) that the per-frame loop reads.

    Everything here is plain data: the host's answers to the queries the loop
    makes about one owned unit during one frame are stored as fields of that
    unit's snapshot, so the loop itself becomes a pure function of its input.
 */
module Host {

  datatype Option<+T> = None | Some(value: T)

  /** Handle of a unit in the current frame. */
  type UnitId = nat

  /** Identifier of a unit type (SCV, Probe, Supply Depot, Pylon, ...). */
  type UnitTypeId = nat

  /** A map position in pixels. */
  datatype Position = Position(x: int, y: int)

  /** A map position in build tiles. */
  datatype TilePosition = TilePosition(x: int, y: int)

  /** The host's last-error diagnostic. Only `InsufficientSupply` is told
      apart by the loop; every other error code behaves the same. */
  datatype HostError = InsufficientSupply | OtherError(code: nat)

  /** What the loop reads from a unit's race: the worker a depot trains, the
      supply provider it falls back on, and that provider's build time. */
  datatype Race = Race(worker: UnitTypeId, supplyProvider: UnitTypeId, supplyBuildTime: nat)

  /** The status queries behind the eligibility filter, one field per query. */
  datatype Status = Status(
    alive: bool,          // exists()
    lockedDown: bool,     // isLockedDown()
    maelstrommed: bool,   // isMaelstrommed()
    stasised: bool,       // isStasised()
    loaded: bool,         // isLoaded()
    powered: bool,        // isPowered()
    stuck: bool,          // isStuck()
    completed: bool,      // isCompleted()
    constructing: bool    // isConstructing()
  )

  /** What a worker holds: gas, minerals, or a non-resource power-up (a flag). */
  datatype Cargo = Cargo(gas: bool, minerals: bool, powerUp: bool)

  /** A unit able to build the supply provider, as found by the host's
      closest-unit query, with the host's answer to the build-location query
      near it (`None` when the returned tile position is not valid). */
  datatype Builder = Builder(id: UnitId, buildLocation: Option<TilePosition>)

  /** The host's answers to the calls the depot branch makes. */
  datatype DepotAnswers = DepotAnswers(
    trainOk: bool,               // result of train(worker type)
    lastError: HostError,        // getLastError() right after that call
    incompleteSupply: nat,       // incompleteUnitCount(supply provider)
    supplyBuilder: Option<Builder>  // closest idle-or-mining builder of the provider
  )

  /** One owned unit as the loop sees it in one frame. */
  datatype Unit = Unit(
    id: UnitId,
    status: Status,
    isWorker: bool,                  // getType().isWorker()
    isResourceDepot: bool,           // getType().isResourceDepot()
    race: Race,
    position: Position,
    idle: bool,                      // isIdle()
    cargo: Cargo,
    closestResource: Option<UnitId>, // closest mineral field or refinery
    depot: DepotAnswers
  )

  /** One call of the per-frame callback: the game-wide queries and the list
      of owned units, in the order the host enumerates them. */
  datatype FrameInput = FrameInput(
    paused: bool,        // isPaused()
    hasSelf: bool,       // self() is not null
    frameCount: nat,     // getFrameCount()
    latencyFrames: int,  // getLatencyFrames()
    units: seq<Unit>
  )
}
