/** check.go: whole runs of the runner, seen from one check. Every step of the runner is, for each check, a few events
    of the single-check machine, so that what holds over all runs of that machine holds in the runner. */
module Runs {
  import opened Options
  import opened Definitions
  import opened Counters
  import opened Resync
  import opened Tracking
  import opened Batcher
  import opened Batches
  import opened Results

  /** A result; a resync from a list; or anything else that may rewrite local states: a flush, a deferred write-back. */
  datatype RunnerStep =
    | GotResult(h: string, status: string, output: string, now: int)
    | GotList(list: seq<HealthCheck>)
    | Background

  /** The step may take the runner from s to s'. */
  ghost predicate Steps(cfg: Settings, step: RunnerStep, s: RunnerState, s': RunnerState) {
    match step
    case GotResult(h, status, output, now) =>
      exists blocked, batch, orders :: Resulted(cfg, h, status, output, now, s, s', blocked, batch, orders)
    case GotList(list) =>
      exists probes :: var t := Resynced(Table(s.side.locals, probes, s.critical), list, cfg.minimumInterval);
                       s'.side.locals == t.checks && s'.critical == t.critical
    case Background =>
      SameButState(s.side.locals, s'.side.locals) && s'.critical == s.critical
  }

  /** A deferred write-back is such a background step; a flush says so itself. */
  lemma HandlingIsBackground(cfg: Settings, s: RunnerState, s': RunnerState, u: Update, current: bool,
                             blocked: bool, batch: seq<Update>, orders: seq<seq<nat>>)
    requires Handled(s.side, s.queue, u, current, None, s'.side, s'.queue, blocked, batch, orders)
    requires s'.critical == s.critical
    ensures Steps(cfg, Background, s, s')
  {
  }

  /** The check as the single-check machine sees it. */
  function Seen(s: RunnerState, h: string): CheckState {
    if h in s.side.locals then CheckState(LocalOf(s.side.locals[h]), Get(s.critical, h))
    else CheckState(Local("", "", 0, 0), None)
  }

  /** The events of check h in one step. */
  function EventsOf(step: RunnerStep, s: RunnerState, s': RunnerState, h: string): seq<Event> {
    var l' := Seen(s', h).local;
    if h !in s.side.locals || h !in s'.side.locals then [Restart(l'.status, l'.output)]
    else if step.GotResult? && step.h == h then
      [Result(step.status, step.output, step.now, false), Rewrite(l'.status, l'.output)]
    else [Rewrite(l'.status, l'.output)]
  }

  lemma RunOne(th: Thresholds, s: CheckState, e: Event)
    ensures Run(th, s, [e]) == Step(th, s, e)
  {
    assert [e][..0] == [];
  }

  lemma RunTwo(th: Thresholds, s: CheckState, e: Event, f: Event)
    ensures Run(th, s, [e, f]) == Step(th, Step(th, s, e), f)
  {
    assert [e, f][..1] == [e];
    RunOne(th, s, e);
  }

  lemma {:induction false} RunAppend(th: Thresholds, s: CheckState, es: seq<Event>, fs: seq<Event>)
    ensures Run(th, s, es + fs) == Run(th, Run(th, s, es), fs)
  {
    if fs == [] {
      assert es + fs == es;
    } else {
      RunAppend(th, s, es, fs[..|fs| - 1]);
      assert (es + fs)[..|es + fs| - 1] == es + fs[..|fs| - 1];
    }
  }

  lemma ResultProjects(cfg: Settings, k: string, status: string, output: string, now: int,
                       s: RunnerState, s': RunnerState,
                       blocked: bool, batch: seq<Update>, orders: seq<seq<nat>>, h: string)
    requires InBounds(s.side.locals, s.critical, cfg.thresholds)
    requires Resulted(cfg, k, status, output, now, s, s', blocked, batch, orders)
    ensures Run(cfg.thresholds, Seen(s, h), EventsOf(GotResult(k, status, output, now), s, s', h)) == Seen(s', h)
  {
    ResultsKeepOrder(cfg, k, status, output, now, s, s', blocked, batch, orders);
    var es := EventsOf(GotResult(k, status, output, now), s, s', h);
    if h in s.side.locals && k == h {
      ResultMovesOwn(cfg, h, status, output, now, s, s', blocked, batch, orders);
      RunTwo(cfg.thresholds, Seen(s, h), es[0], es[1]);
    } else {
      ResultMovesOthers(cfg, k, status, output, now, s, s', blocked, batch, orders, h);
      RunOne(cfg.thresholds, Seen(s, h), es[0]);
    }
  }

  /** The check itself: its counters and its critical time move as in the single-check machine; its state may be
      rewritten. */
  lemma ResultMovesOwn(cfg: Settings, h: string, status: string, output: string, now: int,
                       s: RunnerState, s': RunnerState,
                       blocked: bool, batch: seq<Update>, orders: seq<seq<nat>>)
    requires Resulted(cfg, h, status, output, now, s, s', blocked, batch, orders) && h in s.side.locals
    requires s'.side.locals.Keys == s.side.locals.Keys
    ensures var l' := Seen(s', h).local;
      Seen(s', h) == Step(cfg.thresholds, Step(cfg.thresholds, Seen(s, h), Result(status, output, now, false)),
                          Rewrite(l'.status, l'.output))
  {
  }

  /** Other checks: at most their states are rewritten. */
  lemma ResultMovesOthers(cfg: Settings, k: string, status: string, output: string, now: int,
                          s: RunnerState, s': RunnerState, blocked: bool, batch: seq<Update>, orders: seq<seq<nat>>,
                          h: string)
    requires Resulted(cfg, k, status, output, now, s, s', blocked, batch, orders) && (k != h || h !in s.side.locals)
    requires s'.side.locals.Keys == s.side.locals.Keys
    ensures var l' := Seen(s', h).local;
      if h in s.side.locals then Seen(s', h) == Step(cfg.thresholds, Seen(s, h), Rewrite(l'.status, l'.output))
      else Seen(s', h) == Seen(s, h)
  {
  }

  lemma ListProjects(cfg: Settings, list: seq<HealthCheck>, s: RunnerState, s': RunnerState, h: string)
    requires InBounds(s.side.locals, s.critical, cfg.thresholds) && Steps(cfg, GotList(list), s, s')
    ensures Run(cfg.thresholds, Seen(s, h), EventsOf(GotList(list), s, s', h)) == Seen(s', h)
    ensures InBounds(s'.side.locals, s'.critical, cfg.thresholds)
  {
    var probes :| var t := Resynced(Table(s.side.locals, probes, s.critical), list, cfg.minimumInterval);
                  s'.side.locals == t.checks && s'.critical == t.critical;
    var t0 := Table(s.side.locals, probes, s.critical);
    CountersAreKept(t0, list, cfg.minimumInterval);
    CriticalIsKept(t0, list, cfg.minimumInterval);
    ListedAreTracked(t0, list, cfg.minimumInterval);
    ResyncStaysInBounds(t0, list, cfg.minimumInterval, cfg.thresholds);
    RunOne(cfg.thresholds, Seen(s, h), EventsOf(GotList(list), s, s', h)[0]);
  }

  /** Each step of the runner is, for each check, what its events make of it in the single-check machine. */
  lemma StepProjects(cfg: Settings, step: RunnerStep, s: RunnerState, s': RunnerState, h: string)
    requires InBounds(s.side.locals, s.critical, cfg.thresholds) && Steps(cfg, step, s, s')
    ensures Run(cfg.thresholds, Seen(s, h), EventsOf(step, s, s', h)) == Seen(s', h)
    ensures InBounds(s'.side.locals, s'.critical, cfg.thresholds)
  {
    match step {
      case GotResult(k, status, output, now) =>
        var blocked, batch, orders :| Resulted(cfg, k, status, output, now, s, s', blocked, batch, orders);
        ResultProjects(cfg, k, status, output, now, s, s', blocked, batch, orders, h);
        ResultsKeepOrder(cfg, k, status, output, now, s, s', blocked, batch, orders);
      case GotList(list) =>
        ListProjects(cfg, list, s, s', h);
      case Background =>
        RunOne(cfg.thresholds, Seen(s, h), EventsOf(step, s, s', h)[0]);
    }
  }

  // ---------------------------------------------------------------- runs

  /** The states of a run, with the steps between them. */
  ghost predicate IsRun(cfg: Settings, states: seq<RunnerState>, steps: seq<RunnerStep>) {
    && |states| == |steps| + 1
    && InBounds(states[0].side.locals, states[0].critical, cfg.thresholds)
    && (forall i | 0 <= i < |steps| :: Steps(cfg, steps[i], states[i], states[i + 1]))
  }

  /** All the events of check h in a run. */
  function History(states: seq<RunnerState>, steps: seq<RunnerStep>, h: string): seq<Event>
    requires |states| == |steps| + 1
  {
    if steps == [] then []
    else
      var n := |steps| - 1;
      History(states[..n + 1], steps[..n], h) + EventsOf(steps[n], states[n], states[n + 1], h)
  }

  lemma {:induction false} RunProjects(cfg: Settings, states: seq<RunnerState>, steps: seq<RunnerStep>, h: string)
    requires IsRun(cfg, states, steps)
    ensures Run(cfg.thresholds, Seen(states[0], h), History(states, steps, h)) == Seen(states[|steps|], h)
    ensures InBounds(states[|steps|].side.locals, states[|steps|].critical, cfg.thresholds)
  {
    if steps != [] {
      var n := |steps| - 1;
      RunProjects(cfg, states[..n + 1], steps[..n], h);
      StepProjects(cfg, steps[n], states[n], states[n + 1], h);
      RunAppend(cfg.thresholds, Seen(states[0], h), History(states[..n + 1], steps[..n], h),
                EventsOf(steps[n], states[n], states[n + 1], h));
    }
  }

  /** The results of the check among the steps, critical or not, that came while it was tracked. */
  function ResultsFor(states: seq<RunnerState>, steps: seq<RunnerStep>, h: string, critical: bool): nat
    requires |states| == |steps| + 1
  {
    if steps == [] then 0
    else
      var n := |steps| - 1;
      var step := steps[n];
      ResultsFor(states[..n + 1], steps[..n], h, critical)
      + if && step.GotResult? && step.h == h && (step.status == CRITICAL) == critical
           && h in states[n].side.locals then 1 else 0
  }

  lemma {:induction false} ReceivedAppend(es: seq<Event>, fs: seq<Event>, critical: bool)
    ensures Received(es + fs, critical) == Received(es, critical) + Received(fs, critical)
  {
    if fs == [] {
      assert es + fs == es;
    } else {
      ReceivedAppend(es, fs[..|fs| - 1], critical);
      assert (es + fs)[..|es + fs| - 1] == es + fs[..|fs| - 1];
    }
  }

  lemma {:induction false} HistoryHoldsTheResults(
      cfg: Settings, states: seq<RunnerState>, steps: seq<RunnerStep>, h: string, critical: bool)
    requires IsRun(cfg, states, steps)
    ensures Received(History(states, steps, h), critical) <= ResultsFor(states, steps, h, critical)
  {
    if steps != [] {
      var n := |steps| - 1;
      HistoryHoldsTheResults(cfg, states[..n + 1], steps[..n], h, critical);
      var es := EventsOf(steps[n], states[n], states[n + 1], h);
      ReceivedAppend(History(states[..n + 1], steps[..n], h), es, critical);
      OneStepReceives(es, critical);
    }
  }

  lemma OneStepReceives(es: seq<Event>, critical: bool)
    requires |es| == 1 || |es| == 2
    ensures Received(es, critical)
            == (if IsResult(es[0], critical) then 1 else 0) + (if |es| == 2 && IsResult(es[1], critical) then 1 else 0)
  {
    assert es[..0] == [];
    if |es| == 2 {
      assert es[..1] == [es[0]] && [es[0]][..0] == [];
    }
  }

  /** No flapping, in the runner: over any run from an empty one, with resyncs, reverts, flushes and results of other
      checks anywhere in it, each accepted critical (or non-critical) update of a check is paid for by threshold + 1
      results of that sort, and what its counter holds is paid for on top. */
  lemma RunnerDoesNotFlap(cfg: Settings, states: seq<RunnerState>, steps: seq<RunnerStep>, h: string, critical: bool)
    requires IsRun(cfg, states, steps) && states[0].side.locals == map[]
    ensures Spent(cfg.thresholds, Seen(states[0], h), History(states, steps, h), critical)
            + CounterOf(Seen(states[|steps|], h).local, critical) <= ResultsFor(states, steps, h, critical)
  {
    RunProjects(cfg, states, steps, h);
    HistoryHoldsTheResults(cfg, states, steps, h, critical);
    AcceptedArePaidFor(cfg.thresholds, Seen(states[0], h), History(states, steps, h), critical);
  }

  /** Service reaping, in the runner: whatever attempt a pass makes after any run from an empty one, the time it
      counts from is that of the first critical result of the check's current spell: since then no non-critical result
      of it was accepted, and the check was not dropped. */
  lemma ReapedForItsSpell(cfg: Settings, states: seq<RunnerState>, steps: seq<RunnerStep>, a: Attempt)
    requires IsRun(cfg, states, steps) && states[0].side.locals == map[]
    requires Due(states[|steps|].side.locals, states[|steps|].critical, a)
    ensures var s := states[|steps|];
            var es := History(states, steps, a.hash);
      exists i :: 0 <= i < |es| && StartsSpell(cfg.thresholds, Seen(states[0], a.hash), es, i) && es[i].Result?
        && 0 < s.side.locals[a.hash].hc.definition.deregisterAfterDuration < a.at - es[i].now
  {
    var s, es := states[|steps|], History(states, steps, a.hash);
    RunProjects(cfg, states, steps, a.hash);
    CriticalTimeIsSpellStart(cfg.thresholds, Seen(states[0], a.hash), es);
    var i :| 0 <= i < |es| && StartsSpell(cfg.thresholds, Seen(states[0], a.hash), es, i);
    assert es[i].Result?;
  }
}
