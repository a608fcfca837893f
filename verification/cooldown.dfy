/** The supply-remediation cooldown over a run of frames.

    A run feeds frames to the loop one after another, threading the state,
    and records the frame count of every frame in which the builder search
    ran. The host's frame counter is taken as given: nothing here assumes it
    increases from one call to the next.
 */
module Cooldown {
  import opened Host
  import opened Bot

  /** Every frame of a run can evaluate its gate. */
  predicate RunDefined(inputs: seq<FrameInput>) {
    forall i :: 0 <= i < |inputs| ==> GateDefined(inputs[i])
  }

  /** The state after a run and the frame counts at which it remediated. */
  datatype Trace = Trace(final: BotState, triggers: seq<int>)

  /** Remediation frame counts are more than the cooldown apart, in order. */
  predicate Spaced(t: seq<int>) {
    forall i, j :: 0 <= i < j < |t| ==> t[i] + SupplyCooldown < t[j]
  }

  /** Every frame count in `t` lies strictly above `lo`. */
  predicate Above(lo: int, t: seq<int>) {
    forall k :: 0 <= k < |t| ==> lo < t[k]
  }

  lemma SpacedCons(f: int, t: seq<int>)
    requires Spaced(t) && Above(f + SupplyCooldown, t)
    ensures Spaced([f] + t)
  {
  }

  lemma AboveCons(lo: int, f: int, lo': int, t: seq<int>)
    requires lo < f && lo <= lo' && Above(lo', t)
    ensures Above(lo, [f] + t)
  {
  }

  /** The loop called on each frame in turn. Over any run, `lastChecked`
      never decreases, every remediation happens more than the cooldown after
      the starting `lastChecked`, any two remediations are more than the
      cooldown apart, and the final state holds the frame count of the last
      one, or the starting state when there was none. */
  function Run(s: BotState, inputs: seq<FrameInput>): (r: Trace)
    requires RunDefined(inputs)
    ensures |r.triggers| <= |inputs|
    ensures s.lastChecked <= r.final.lastChecked
    ensures Above(s.lastChecked + SupplyCooldown, r.triggers)
    ensures Spaced(r.triggers)
    ensures r.triggers == [] ==> r.final == s
    ensures r.triggers != [] ==> r.final.lastChecked == r.triggers[|r.triggers| - 1]
    decreases |inputs|
  {
    if |inputs| == 0 then Trace(s, [])
    else
      var step := Frame(s, inputs[0]);
      var rest := Run(step.next, inputs[1..]);
      if Searches(step.actions) > 0 then
        var f := inputs[0].frameCount;
        SpacedCons(f, rest.triggers);
        AboveCons(s.lastChecked + SupplyCooldown, f, f + SupplyCooldown, rest.triggers);
        var t := [f] + rest.triggers;
        assert rest.triggers != [] ==> t[|t| - 1] == rest.triggers[|rest.triggers| - 1];
        Trace(rest.final, t)
      else
        Trace(rest.final, rest.triggers)
  }

  /** Starting from the initial state, no remediation fires at or before
      frame 400. */
  lemma NoEarlyRemediation(inputs: seq<FrameInput>)
    requires RunDefined(inputs)
    ensures forall k :: 0 <= k < |Run(Initial, inputs).triggers| ==>
      Run(Initial, inputs).triggers[k] > 400
  {
  }

  /** A depot that keeps failing to train for lack of supply, seen with a
      latency of 10 frames: frame 101 is throttled, frame 500 remediates from
      the initial state, and after that frames 600 and 900 only train and show the
      error (900 is exactly 400 later), while frame 910 remediates. */
  lemma SupplyScenario(d: Unit)
    requires Eligible(d) && !d.isWorker && d.isResourceDepot && d.idle
    requires !d.depot.trainOk && d.depot.lastError == InsufficientSupply
    requires d.depot.incompleteSupply == 0
    ensures Frame(Initial, FrameInput(false, true, 101, 10, [d])) == Step(Initial, [])
    ensures Frame(Initial, FrameInput(false, true, 500, 10, [d])).next == BotState(500)
    ensures Frame(BotState(500), FrameInput(false, true, 600, 10, [d])) ==
      Step(BotState(500), [Train(d.id, d.race.worker), ShowError(d.position, InsufficientSupply, 10)])
    ensures Frame(BotState(500), FrameInput(false, true, 900, 10, [d])) ==
      Step(BotState(500), [Train(d.id, d.race.worker), ShowError(d.position, InsufficientSupply, 10)])
    ensures Frame(BotState(500), FrameInput(false, true, 910, 10, [d])).next == BotState(910)
  {
    assert [d][1..] == [];
    var busy := [Train(d.id, d.race.worker), ShowError(d.position, InsufficientSupply, 10)];
    assert UnitStep(BotState(500), 600, 10, d) == Step(BotState(500), busy);
    assert busy + [] == busy;
    assert Units(BotState(500), 600, 10, []) == Step(BotState(500), []);
    assert Units(BotState(500), 600, 10, [d]) == Step(BotState(500), busy);
    assert 600 % 10 == 0;
    assert UnitStep(BotState(500), 900, 10, d) == Step(BotState(500), busy);
    assert Units(BotState(500), 900, 10, []) == Step(BotState(500), []);
    assert Units(BotState(500), 900, 10, [d]) == Step(BotState(500), busy);
    assert 900 % 10 == 0;
  }
}
