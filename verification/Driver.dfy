/** check.go: a runner driven by whatever comes to it, in whatever order, makes a run in the sense of `Runs`. */
module Driver {
  import opened Definitions
  import opened Counters
  import opened Resync
  import opened Tracking
  import opened Probes
  import opened Store
  import opened Batcher
  import opened Batches
  import opened Results
  import opened Runner
  import opened Runs

  /** The same checks with the same definitions. */
  ghost predicate SameDefinitions(v: Locals, v': Locals) {
    v'.Keys == v.Keys && forall h | h in v :: v'[h].hc.definition == v[h].hc.definition
  }

  lemma ResultKeepsDefinitions(cfg: Settings, h: string, status: string, output: string, now: int,
                               s: RunnerState, s': RunnerState,
                               blocked: bool, batch: seq<Update>, orders: seq<seq<nat>>)
    requires Resulted(cfg, h, status, output, now, s, s', blocked, batch, orders)
    ensures SameDefinitions(s.side.locals, s'.side.locals)
  {
    if h in s.side.locals {
      var l := Count(cfg.thresholds, LocalOf(s.side.locals[h]), status, output);
      var l' := if cfg.agentless then l.(status := status, output := output) else l;
      PutKeepsDefinitions(s.side.locals, h, l');
    }
  }

  lemma PutKeepsDefinitions(v: Locals, h: string, l: Local)
    requires h in v
    ensures SameDefinitions(v, PutLocal(v, h, l))
  {
  }

  lemma SameProbesWanted(v: Locals, v': Locals, probes: map<Slot, ProbeState>, critical: map<string, int>,
                         critical': map<string, int>)
    requires WellKept(Table(v, probes, critical)) && SameDefinitions(v, v') && critical'.Keys <= v'.Keys
    ensures WellKept(Table(v', probes, critical'))
  {
    forall slot ensures slot in probes <==> IsSlotOf(v', slot) {
      assert IsSlotOf(v', slot) <==> IsSlotOf(v, slot);
    }
  }

  /** Only a list changes what the probes ought to be. */
  lemma StepKeepsProbes(cfg: Settings, step: RunnerStep, s: RunnerState, s': RunnerState, probes: map<Slot, ProbeState>)
    requires InBounds(s.side.locals, s.critical, cfg.thresholds) && Steps(cfg, step, s, s') && !step.GotList?
    ensures WellKept(Table(s.side.locals, probes, s.critical)) ==> WellKept(Table(s'.side.locals, probes, s'.critical))
  {
    if step.GotResult? {
      var blocked, batch, orders :|
        Resulted(cfg, step.h, step.status, step.output, step.now, s, s', blocked, batch, orders);
      ResultsKeepOrder(cfg, step.h, step.status, step.output, step.now, s, s', blocked, batch, orders);
      ResultKeepsDefinitions(cfg, step.h, step.status, step.output, step.now, s, s', blocked, batch, orders);
    }
    if WellKept(Table(s.side.locals, probes, s.critical)) {
      SameProbesWanted(s.side.locals, s'.side.locals, probes, s.critical, s'.critical);
    }
  }

  /** Each tracked check has exactly one probe, and no probe runs outside the maps. */
  ghost predicate InOrder(r: CheckRunner)
    reads r, r.checks, r.probes
  {
    r.probes.tidy && WellKept(r.View())
  }

  /** What can come to a runner. */
  datatype Input =
    | AResult(h: string, status: string, output: string, now: int)
    | AList(list: seq<HealthCheck>)
    | ATimer(h: string)
    | AFlush
    | AStop

  function StepOf(input: Input): RunnerStep {
    match input
    case AResult(h, status, output, now) => GotResult(h, status, output, now)
    case AList(list) => GotList(list)
    case _ => Background
  }

  /** If it is a list, its definitions are of a single kind each. */
  ghost predicate SingleKinds(input: Input) {
    input.AList? ==> forall c | c in input.list :: SingleKind(c.definition)
  }

  /** Every write-back whose timer is not among the inputs is still armed as it was. */
  ghost predicate StillArmed(d: map<string, DeferredSync>, d': map<string, DeferredSync>, inputs: seq<Input>) {
    forall h | h in d && ATimer(h) !in inputs :: h in d' && d'[h] == d[h]
  }

  lemma ArmedOn(d: map<string, DeferredSync>, d1: map<string, DeferredSync>, d2: map<string, DeferredSync>,
                inputs: seq<Input>, input: Input)
    requires StillArmed(d, d1, inputs) && StillArmed(d1, d2, [input])
    ensures StillArmed(d, d2, inputs + [input])
  {
  }

  /** A result comes in. */
  method TakeResult(r: CheckRunner, h: string, status: string, output: string, now: int)
    requires r.Valid()
    modifies r`checksCritical, r`deferCheck, r.client, r.checks.repr, r.batcher
    ensures r.Valid() && r.checks.Objects() == old(r.checks.Objects())
    ensures Steps(r.settings, GotResult(h, status, output, now), old(r.State()), r.State())
    ensures StillArmed(old(r.deferCheck), r.deferCheck, [])
    ensures OnlyEdits(old(r.client.world), r.client.world)
  {
    ghost var batch, orders;
    var blocked;
    blocked, batch, orders := r.UpdateCheck(h, status, output, now);
  }

  /** A list comes in. */
  method TakeList(r: CheckRunner, list: seq<HealthCheck>)
    requires r.InPlace() && r.Valid()
    modifies r`checksCritical, r.checks.repr, r.probes.repr
    ensures r.InPlace() && r.Valid()
    ensures fresh(r.checks.repr - old(r.checks.repr)) && fresh(r.probes.repr - old(r.probes.repr))
    ensures Steps(r.settings, GotList(list), old(r.State()), r.State()) && r.client.world == old(r.client.world)
    ensures old(InOrder(r)) && (forall c | c in list :: SingleKind(c.definition)) ==> InOrder(r)
  {
    ghost var probes := Join(r.probes.view);
    ghost var t := r.View();
    r.UpdateChecks(list);
    assert t == Table(t.checks, probes, t.critical);
    assert r.checks.view == Resynced(Table(t.checks, probes, t.critical), list, r.settings.minimumInterval).checks;
  }

  /** The timer of a deferred output goes off, if there is one. */
  method TakeTimer(r: CheckRunner, h: string)
    requires r.Valid()
    modifies r`deferCheck, r.client, r.checks.repr, r.batcher
    ensures r.Valid() && r.checks.Objects() == old(r.checks.Objects()) && r.deferCheck == old(r.deferCheck) - {h}
    ensures Steps(r.settings, Background, old(r.State()), r.State())
    ensures OnlyEdits(old(r.client.world), r.client.world)
  {
    if h in r.deferCheck {
      ghost var s, d := r.State(), r.deferCheck[h];
      ghost var current := r.checks.IsCurrent(d.check);
      ghost var batch, orders := r.FireDeferred(h);
      HandlingIsBackground(r.settings, s, r.State(), DeferredUpdate(d), current, false, batch, orders);
    }
  }

  /** The flush timer goes off, if there is a batcher. */
  method TakeFlush(r: CheckRunner)
    requires r.Valid()
    modifies r.client, r.checks.repr, r.batcher
    ensures r.Valid() && r.checks.Objects() == old(r.checks.Objects())
    ensures Steps(r.settings, Background, old(r.State()), r.State())
    ensures OnlyEdits(old(r.client.world), r.client.world)
  {
    if r.batcher != null {
      ghost var batch, orders := r.FlushPending();
    }
  }

  /** The batcher stops. */
  method TakeStop(r: CheckRunner)
    requires r.Valid()
    modifies r`batcher, r.client, r.checks.repr, r.batcher
    ensures r.Valid() && r.checks.Objects() == old(r.checks.Objects()) && r.batcher == null
    ensures Steps(r.settings, Background, old(r.State()), r.State())
    ensures OnlyEdits(old(r.client.world), r.client.world)
  {
    ghost var batch, orders := r.StopBatcher();
  }

  /** Anything but a list leaves the probes alone. */
  method TakeOther(r: CheckRunner, input: Input)
    requires r.Valid() && !input.AList?
    modifies r`checksCritical, r`deferCheck, r`batcher, r.client, r.checks.repr, r.batcher
    ensures r.Valid() && r.checks.Objects() == old(r.checks.Objects())
    ensures r.batcher == old(r.batcher) || r.batcher == null
    ensures Steps(r.settings, StepOf(input), old(r.State()), r.State())
    ensures OnlyEdits(old(r.client.world), r.client.world) && StillArmed(old(r.deferCheck), r.deferCheck, [input])
  {
    match input {
      case AResult(h, status, output, now) => TakeResult(r, h, status, output, now);
      case ATimer(h) => TakeTimer(r, h);
      case AFlush => TakeFlush(r);
      case AStop => TakeStop(r);
    }
  }

  twostate lemma StaysInPlace(r: CheckRunner)
    requires old(r.InPlace()) && r.checks.Valid() && r.checks.Objects() == old(r.checks.Objects())
    requires r.batcher == old(r.batcher) || r.batcher == null
    requires unchanged(r.probes) && forall o | o in old(r.probes.repr) :: unchanged(o)
    ensures r.InPlace()
  {
  }

  /** Anything but a list, with the probes in view. */
  method TakeInPlace(r: CheckRunner, input: Input)
    requires r.InPlace() && r.Valid() && !input.AList?
    modifies r`checksCritical, r`deferCheck, r`batcher, r.client, r.checks.repr, r.batcher
    ensures r.InPlace() && r.Valid() && (r.batcher == old(r.batcher) || r.batcher == null)
    ensures r.checks.Objects() == old(r.checks.Objects()) && r.probes.repr == old(r.probes.repr)
    ensures Steps(r.settings, StepOf(input), old(r.State()), r.State())
    ensures OnlyEdits(old(r.client.world), r.client.world) && StillArmed(old(r.deferCheck), r.deferCheck, [input])
    ensures old(InOrder(r)) ==> InOrder(r)
  {
    ghost var s, probes := r.State(), Join(r.probes.view);
    TakeOther(r, input);
    StaysInPlace(r);
    assert r.View() == Table(r.checks.view, probes, r.checksCritical);
    StepKeepsProbes(r.settings, StepOf(input), s, r.State(), probes);
  }

  method Take(r: CheckRunner, input: Input)
    requires r.InPlace() && r.Valid()
    modifies r`checksCritical, r`deferCheck, r`batcher, r.client, r.checks.repr, r.probes.repr, r.batcher
    ensures r.InPlace() && r.Valid() && (r.batcher == old(r.batcher) || r.batcher == null)
    ensures fresh(r.checks.repr - old(r.checks.repr)) && fresh(r.probes.repr - old(r.probes.repr))
    ensures Steps(r.settings, StepOf(input), old(r.State()), r.State())
    ensures OnlyEdits(old(r.client.world), r.client.world) && StillArmed(old(r.deferCheck), r.deferCheck, [input])
    ensures old(InOrder(r)) && SingleKinds(input) ==> InOrder(r)
  {
    if input.AList? {
      TakeList(r, input.list);
    } else {
      TakeInPlace(r, input);
    }
  }

  /** The states make a run on the inputs, from w and the armed write-backs d to w' and d'. All that the runner
      commits in it are edits of checks that lose no write of another; and a write-back once armed stays armed until
      its timer goes off, be it that the status changes or that the check is dropped. */
  ghost predicate IsDriven(cfg: Settings, inputs: seq<Input>, states: seq<RunnerState>, steps: seq<RunnerStep>,
                           w: World, d: map<string, DeferredSync>, w': World, d': map<string, DeferredSync>)
  {
    && IsRun(cfg, states, steps) && |steps| == |inputs|
    && (forall i | 0 <= i < |inputs| :: steps[i] == StepOf(inputs[i]))
    && OnlyEdits(w, w') && StillArmed(d, d', inputs)
  }

  lemma DrivenOn(cfg: Settings, inputs: seq<Input>, states: seq<RunnerState>, steps: seq<RunnerStep>,
                 w: World, d: map<string, DeferredSync>, w1: World, d1: map<string, DeferredSync>,
                 input: Input, s': RunnerState, w2: World, d2: map<string, DeferredSync>)
    requires IsDriven(cfg, inputs, states, steps, w, d, w1, d1)
    requires Steps(cfg, StepOf(input), states[|steps|], s') && OnlyEdits(w1, w2) && StillArmed(d1, d2, [input])
    ensures IsDriven(cfg, inputs + [input], states + [s'], steps + [StepOf(input)], w, d, w2, d2)
  {
    EditsCompose(w, w1, w2);
    ArmedOn(d, d1, d2, inputs, input);
  }

  /** Whatever comes to a runner, in whatever order: its states make a run, so that what is proved of runs holds of
      it; and if definitions are of a single kind each, then in the end the live probes are exactly those in the maps.
      */
  method Drive(r: CheckRunner, inputs: seq<Input>)
    returns (ghost states: seq<RunnerState>, ghost steps: seq<RunnerStep>)
    requires r.InPlace() && r.Valid()
    modifies r`checksCritical, r`deferCheck, r`batcher, r.client, r.checks.repr, r.probes.repr, r.batcher
    ensures r.InPlace() && r.Valid()
    ensures IsDriven(r.settings, inputs, states, steps,
                     old(r.client.world), old(r.deferCheck), r.client.world, r.deferCheck)
    ensures states[0] == old(r.State()) && states[|steps|] == r.State()
    ensures old(InOrder(r)) && (forall input | input in inputs :: SingleKinds(input)) ==>
      InOrder(r) && r.probes.LiveProbesAreMapped()
  {
    states, steps := [r.State()], [];
    for i := 0 to |inputs|
      invariant r.InPlace() && r.Valid() && (r.batcher == old(r.batcher) || r.batcher == null)
      invariant fresh(r.checks.repr - old(r.checks.repr)) && fresh(r.probes.repr - old(r.probes.repr))
      invariant IsDriven(r.settings, inputs[..i], states, steps,
                         old(r.client.world), old(r.deferCheck), r.client.world, r.deferCheck)
      invariant states[0] == old(r.State()) && states[i] == r.State()
      invariant old(InOrder(r)) && (forall input | input in inputs :: SingleKinds(input)) ==> InOrder(r)
    {
      ghost var w1, d1 := r.client.world, r.deferCheck;
      Take(r, inputs[i]);
      DrivenOn(r.settings, inputs[..i], states, steps, old(r.client.world), old(r.deferCheck), w1, d1,
               inputs[i], r.State(), r.client.world, r.deferCheck);
      assert inputs[..i + 1] == inputs[..i] + [inputs[i]];
      states, steps := states + [r.State()], steps + [StepOf(inputs[i])];
    }
    assert inputs[..|inputs|] == inputs;
    if InOrder(r) {
      r.probes.OrderMeansLive(r.View());
    }
  }
}
