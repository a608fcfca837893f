# StarcraftBot per-frame loop, modelled in Dafny

This project models `BotAIModule::onFrame` of a small BWAPI bot for
StarCraft: Brood War. The host calls this loop once per game frame. The
loop works through these steps:

1. It returns at once when the game is paused or no player is controlled.
2. It only acts when the frame count is a multiple of the latency frames.
3. It passes every owned unit through a fixed eligibility filter. The filter
   skips a unit that no longer exists, is disabled (locked down,
   maelstrommed or stasised), cannot act (loaded, unpowered or stuck), or is
   incomplete or constructing.
4. It sends each remaining unit to one of two branches:
   - an idle worker returns its cargo, or else gathers from the closest
     mineral field or refinery, unless it holds a power-up;
   - an idle resource depot trains a worker. When training fails, the error
     is shown at the depot for one latency window. If the failure is a supply
     shortage, a rate-limited remediation looks for a builder and orders a
     supply provider.

The only state that lasts across frames is the function-static
`lastChecked`: the frame count of the last remediation, starting at 0. A
remediation needs `lastChecked + 400 < frameCount`. It sets `lastChecked`
to the current frame whether or not a builder and a build location are
found.

Files:

- `host.dfy` (module `Host`) holds the snapshot of one frame: each owned
  unit's status, role, cargo, and the host's answers to the queries the loop
  makes about it.
  - Those answers are the result of `train`, the last error, the incomplete
    supply-provider count, the closest resource, and the closest builder with
    the build location near it.
- `bot.dfy` (module `Bot`) holds the loop as pure functions.
  - `Frame(state, input)` returns a `Step`: the next state and the host calls
    in order.
  - It is built from `SkipReason`/`Eligible`, `WorkerActions`, `DepotStep`,
    `UnitStep` and `Units`.
- `frame_properties.dfy` (module `FrameProperties`) holds whole-frame
  properties:
  - skipped units are invisible;
  - exactly which workers get which orders, and which depots are told to
    train;
  - a frame holds at most one build order, and it is the one of the first
    qualifying depot;
  - remediation fires exactly when some depot qualifies, and the first
    qualifying depot is the one that searches.
- `cooldown.dfy` (module `Cooldown`) threads the state through a run of
  frames. It proves the cooldown consequences across frames, and it holds a
  concrete scenario.

The host calls are recorded as `Action` values, in source order:

- `Train` and `Gather` are recorded whether or not the host accepts them.
  `train`'s result is an input (`trainOk`). `gather`'s result is not
  modelled, because it only controls the error printing that is left out.
- The overlay events the loop registers are recorded as `ShowError` (for
  `latencyFrames` frames) and `ShowBuildBox` (for the supply provider's build
  time plus 100 frames).
- `SearchSupplyBuilder` is recorded for the closest-builder query that only
  the remediation makes. This makes "one remediation per frame" observable.

The code requires strictly more than 400 frames since the last remediation
(`lastChecked + 400 < frameCount`, Bot.cpp:96). So a depot at exactly
`lastChecked + 400` does not remediate (`Cooldown.SupplyScenario`).

## Model

| member | source | states |
|---|---|---|
| Bot.Frame | StarcraftBot/Bot.cpp:26-125 | A paused frame, a frame without a player, and a frame whose count is not a multiple of the latency give no calls and keep `lastChecked`. Otherwise `lastChecked` never decreases. If it changes, it becomes the frame count, and the old value plus 400 is below that count. A frame runs at most one builder search, and it runs one exactly when the state changes. |
| Bot.SkipReason | StarcraftBot/Bot.cpp:40-55 | The guards are evaluated in order: gone, then disabled, then not actionable, then incomplete. Each reason is reported only when every earlier guard passed. No reason is reported exactly when the unit passes all nine status checks. |
| Bot.WorkerActions | StarcraftBot/Bot.cpp:60-75 | An idle worker gets exactly `ReturnCargo` when it carries gas or minerals. It gets exactly one `Gather` aimed at the host's closest mineral field or refinery when it carries nothing and has no power-up. Otherwise it gets nothing. Only worker orders are ever given. |
| Bot.BuildOrders | StarcraftBot/Bot.cpp:104-120 | The box overlay and the build order are issued only when a builder was found and the location is valid. The first call is the box at that tile for the supply provider, shown for its build time plus 100 frames. The last call is `Build` by that builder, of the supply provider, at that tile. There is exactly one `Build` then, and none otherwise. |
| Bot.Remediation | StarcraftBot/Bot.cpp:100-120 | A remediation first runs the closest-builder search for this depot, exactly once. It adds exactly one build order when the host found a builder and a valid location, and none otherwise. Any build order is by the builder found, of the race's supply provider, at the tile found. |
| Bot.DepotStep | StarcraftBot/Bot.cpp:78-122 | A busy depot gets nothing. An idle depot first calls `Train` for its race's worker. The error overlay appears exactly when training fails. A state change sets `lastChecked` to the frame, only after more than 400 frames, and comes with exactly one builder search by this depot. There is exactly one build order when the depot remediates and the host found a builder and a valid location, and none otherwise. No worker order is given. |
| Bot.UnitStep | StarcraftBot/Bot.cpp:38-124 | A skipped unit gets nothing. An eligible worker gets only the worker branch and never changes the state, even if its type is also a depot. The state changes exactly when all the remediation conditions hold. `Train` is issued exactly for an eligible idle non-worker depot. Exactly one build is issued when remediation runs with a builder and a valid location, and none otherwise. |
| Bot.Units | StarcraftBot/Bot.cpp:38-124 | Over all units of a frame, `lastChecked` never decreases. It either stays or becomes the frame count after a gap of more than 400. There is exactly one builder search when it changes and none otherwise, however many depots fail. |
| FrameProperties.IneligibleUnitsAreIgnored | StarcraftBot/Bot.cpp:40-55 | Dropping every unit the filter skips leaves the frame's calls and next state unchanged. |
| FrameProperties.RemediationIffSomeDepot | StarcraftBot/Bot.cpp:80-98 | A frame's units change the state exactly when some unit is an eligible, idle, non-worker depot that meets all of these conditions: training failed, the error is Insufficient_Supply, `lastChecked + 400 < frame`, and no supply provider is incomplete. |
| FrameProperties.SearchByFirstDepot | StarcraftBot/Bot.cpp:92-103 | When several depots qualify, the first one in enumeration order runs the builder search. It is the only search in the frame. |
| FrameProperties.WorkerOrdersOfUnits | StarcraftBot/Bot.cpp:57-80 | A return or gather order appears among a frame's calls exactly when the worker branch gives it to some eligible worker of that frame. |
| FrameProperties.WorkerOrderReachesFrame | StarcraftBot/Bot.cpp:38-75 | Every return or gather order the worker branch gives an eligible worker is among the frame's calls. Other units never block it, whatever the state they leave behind. |
| FrameProperties.WorkerOrderHasWorker | StarcraftBot/Bot.cpp:57-80 | Any return or gather order among a frame's calls was given to some eligible worker of that frame. Depots and skipped units never issue one. |
| FrameProperties.ReturnCargoInFrame | StarcraftBot/Bot.cpp:29-64 | `ReturnCargo(x)` is in a frame's calls exactly when the frame passes its gate and unit `x` is an eligible idle worker carrying gas or minerals. |
| FrameProperties.GatherInFrame | StarcraftBot/Bot.cpp:29-74 | `Gather(x, t)` is in a frame's calls exactly when the frame passes its gate and unit `x` is an eligible idle worker with no cargo and no power-up whose closest resource is `t`. |
| FrameProperties.TrainReachesFrame | StarcraftBot/Bot.cpp:38-80 | Every eligible, idle, non-worker resource depot has its `Train` call for its race's worker among the frame's calls, whatever state earlier units leave behind. |
| FrameProperties.TrainHasDepot | StarcraftBot/Bot.cpp:57-80 | Every `Train(x, w)` among a frame's calls comes from an eligible, idle, non-worker depot `x` whose race's worker is `w`. No `Train` appears that no unit produced. |
| FrameProperties.TrainInFrame | StarcraftBot/Bot.cpp:29-80 | `Train(x, w)` is in a frame's calls exactly when the frame passes its gate and unit `x` is an eligible, idle, non-worker resource depot whose race's worker is `w`. |
| FrameProperties.NoRemediationNoBuild | StarcraftBot/Bot.cpp:95-118 | When no depot of the frame meets every remediation condition, the frame has no build order. |
| FrameProperties.BuildByFirstDepot | StarcraftBot/Bot.cpp:92-118 | A build order is among the calls exactly when it is the one for the first remediating depot: the builder the host found builds the race's supply provider at the valid tile found. Later depots find the cooldown restarted and cannot add one. |
| FrameProperties.BuildInFrame | StarcraftBot/Bot.cpp:29-118 | A frame holds at most one `Build`. `Build(b, p, t)` is among its calls exactly when the frame passes its gate and its first remediating depot got builder `b` and valid tile `t` from the host, and `p` is that depot's race's supply provider. |
| FrameProperties.FrameRemediatesIff | StarcraftBot/Bot.cpp:29-35 | A frame changes `lastChecked` exactly when it passes the pause, player and latency gate and one of its depots meets every remediation condition. |
| Cooldown.Run | StarcraftBot/Bot.cpp:92-98 | The loop is called on successive frames, whose counts need not increase. Over any run:<br>- `lastChecked` never decreases;<br>- every remediation comes more than 400 frames after the starting `lastChecked`;<br>- any two remediations are more than 400 frames apart, in order;<br>- the final `lastChecked` is the last remediation's frame, or the state is unchanged when there was none;<br>- there are never more remediations than frames. |
| Cooldown.NoEarlyRemediation | StarcraftBot/Bot.cpp:92-96 | Starting from `lastChecked = 0`, no remediation fires at or before frame 400. |
| Cooldown.SupplyScenario | StarcraftBot/Bot.cpp:95-98 | With a latency of 10, this depot behaves as follows:<br>- frame 101 is throttled;<br>- it remediates at frame 500;<br>- it then only trains and shows the error at frames 600 and 900 (exactly 400 later);<br>- it remediates again at 910. |

## Left out

- `onStart`, `onEnd` and the other event callbacks only send chat text, print, or set the host's command optimisation level. They hold no decision logic.
- Printing the last error when `gather` fails is output only. The `Gather` call itself is modelled.
- Drawing is not modelled. Each overlay is recorded only as an action with its duration.
- How the host answers its queries is not modelled: closest unit, build location, `train` success, last error, incomplete unit count. Each answer is a field of the unit's snapshot. So the model does not capture that one depot's `train` call could change the answer another depot gets in the same frame.
- Frame counts and `lastChecked` are unbounded integers. The 32-bit overflow of `lastChecked + 400` near frame 2^31 is not modelled.
- The loop's `%` is only required to have a non-zero divisor when it is evaluated, that is, when the game runs and a player is controlled. A zero latency in that case is undefined behaviour in the source.
- A second copy of this loop with a one-shot barracks-building rule is not part of this model.
