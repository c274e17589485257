/** check.go: the catalog catches up with reality. A resync from the current catalog, enough equal results, and one
    flush repair whatever lost updates, reverts and forgotten retries have left behind, whatever else the runner does
    meanwhile. */
module Healing {
  import opened Options
  import opened Definitions
  import opened Counters
  import opened Resync
  import opened Tracking
  import opened Batcher
  import opened Store
  import opened Batches
  import opened Results
  import opened Quiet
  import opened Runner
  import opened Driver
  import opened WriteBacks

  /** The catalog has the check as given. */
  ghost predicate Holds(e: Entries, c: HealthCheck) {
    KeyOf(c) in e && e[KeyOf(c)].val == CheckVal(c)
  }

  /** After i results: they are still being counted, or the result is what is said of the check. */
  ghost predicate Converging(th: Thresholds, s: RunnerState, c: HealthCheck, status: string, output: string, i: int) {
    var e, h := s.side.server.world.entries, HashOf(c);
    && s.side.server.script == [] && KeyOf(c) in e && h in s.side.locals
    && var t, said := s.side.locals[h], Said(e, s.queue, c);
       var l := LocalOf(t);
       && t.hc == WithResult(c, l.status, l.output) && said == WithResult(c, said.status, said.output) && Bounded(th, l)
       && if l.status == c.status then CounterFor(l, status) >= i
          else (l.status, l.output) == (status, output) && said == WithResult(c, status, output)
  }

  /** A resync makes the local state that of the catalog. */
  lemma StartsConverging(t: Table, server: Server, q: Queue, list: seq<HealthCheck>, c: HealthCheck,
                         status: string, output: string, minimum: int, th: Thresholds)
    requires c in list && Runnable(c) && DistinctHashes(list) && forall x | x in list :: WellNamedCheck(x)
    requires WellNamedState(t.checks, q) && InBounds(t.checks, t.critical, th)
    requires server.script == [] && Holds(server.world.entries, c)
    ensures var t' := Resynced(t, list, minimum);
      && WellNamedState(t'.checks, q)
      && Converging(th, RunnerState(Side(server, t'.checks), q, t'.critical), c, status, output, 0)
  {
    SnapshotIsTracked(t, list, minimum);
    var i :| 0 <= i < |list| && list[i] == c;
    ListedMeans(list, HashOf(c));
    ResyncKeepsNames(t, list, minimum, q);
    ResyncStaysInBounds(t, list, minimum, th);
  }

  /** One more equal result. */
  lemma ResultConverges(cfg: Settings, c: HealthCheck, status: string, output: string, now: int, i: nat,
                        s: RunnerState, s': RunnerState, blocked: bool, batch: seq<Update>, orders: seq<seq<nat>>)
    requires status != c.status && WellNamedCheck(c) && (s.queue.Queued? ==> cfg.agentless)
    requires WellNamedState(s.side.locals, s.queue)
    requires Converging(cfg.thresholds, s, c, status, output, i)
    requires Resulted(cfg, HashOf(c), status, output, now, s, s', blocked, batch, orders)
    ensures !blocked && Converging(cfg.thresholds, s', c, status, output, i + 1)
  {
    var h := HashOf(c);
    var l0 := LocalOf(s.side.locals[h]);
    ResultSays(cfg, h, status, output, now, s, s', blocked, batch, orders, c);
    PutLocalMeans(s.side.locals, h, AfterResult(cfg, l0, status, output, true));
  }

  // ---------------------------------------------------------------- what else may come

  /** No other tracked check is the catalog's check c. */
  ghost predicate Alone(v: Locals, c: HealthCheck) {
    forall h | h in v && h != HashOf(c) :: KeyOf(v[h].hc) != KeyOf(c)
  }

  /** Nor is one that has a write-back armed. */
  ghost predicate ArmedForOthers(d: map<string, DeferredSync>, c: HealthCheck) {
    forall h | h in d && h != HashOf(c) ::
      var o := d[h].check.listed; WellNamedCheck(o) && KeyOf(o) != KeyOf(c) && HashOf(o) != HashOf(c)
  }

  /** The result that is to be healed; a result or a write-back of another check, if such may come; a flush, or the
      stop of the batcher. */
  predicate Allowed(input: Input, c: HealthCheck, status: string, output: string, others: bool) {
    match input
    case AResult(h, status1, output1, _) => if h == HashOf(c) then (status1, output1) == (status, output) else others
    case AList(_) => false
    case ATimer(h) => others && h != HashOf(c)
    case _ => true
  }

  predicate IsOwn(input: Input, c: HealthCheck) {
    input.AResult? && input.h == HashOf(c)
  }

  /** How many results of the check there are. */
  function OwnCount(inputs: seq<Input>, c: HealthCheck): nat {
    if inputs == [] then 0
    else OwnCount(inputs[..|inputs| - 1], c) + if IsOwn(inputs[|inputs| - 1], c) then 1 else 0
  }

  lemma ListedAlone(t: Table, list: seq<HealthCheck>, c: HealthCheck, minimum: int)
    requires DistinctHashes(list) && forall x | x in list && Runnable(x) && x != c :: KeyOf(x) != KeyOf(c)
    ensures Alone(Resynced(t, list, minimum).checks, c)
  {
    var v := Resynced(t, list, minimum).checks;
    SnapshotIsTracked(t, list, minimum);
    ListedAreTracked(t, list, minimum);
    forall h | h in v && h != HashOf(c) ensures KeyOf(v[h].hc) != KeyOf(c) {
      ListedMeans(list, h);
      var i :| 0 <= i < |list| && Runnable(list[i]) && HashOf(list[i]) == h;
      assert list[i] in list;
    }
  }

  /** A result of another check. */
  lemma OtherResultConverges(cfg: Settings, k: string, status1: string, output1: string, now: int,
                             s: RunnerState, s': RunnerState, blocked: bool, batch: seq<Update>, orders: seq<seq<nat>>,
                             c: HealthCheck, status: string, output: string, i: nat)
    requires WellNamedCheck(c) && (s.queue.Queued? ==> cfg.agentless) && k != HashOf(c)
    requires WellNamedState(s.side.locals, s.queue) && Alone(s.side.locals, c)
    requires Converging(cfg.thresholds, s, c, status, output, i)
    requires Resulted(cfg, k, status1, output1, now, s, s', blocked, batch, orders)
    ensures Converging(cfg.thresholds, s', c, status, output, i) && Alone(s'.side.locals, c)
    ensures WellNamedState(s'.side.locals, s'.queue)
  {
    if k in s.side.locals {
      ResultSays(cfg, k, status1, output1, now, s, s', blocked, batch, orders, c);
      var t := s.side.locals[k];
      PutLocalMeans(s.side.locals, k, AfterResult(cfg, LocalOf(t), status1, output1,
                                                  KeyOf(t.hc) in s.side.server.world.entries));
    }
  }

  /** A write-back of another check. */
  lemma WriteBackConverges(th: Thresholds, o: HealthCheck, w: Update, current: bool, s: RunnerState, s': RunnerState,
                           batch: seq<Update>, orders: seq<seq<nat>>,
                           c: HealthCheck, status: string, output: string, i: nat)
    requires WellNamedCheck(c) && WellNamedState(s.side.locals, s.queue)
    requires WellNamedCheck(o) && KeyOf(o) != KeyOf(c) && HashOf(o) != HashOf(c)
    requires w == UpdateOf(o, w.status, w.output, Local("", "", 0, 0))
    requires Converging(th, s, c, status, output, i)
    requires Handled(s.side, s.queue, w, current, None, s'.side, s'.queue, false, batch, orders)
    ensures Converging(th, s', c, status, output, i) && WellNamedState(s'.side.locals, s'.queue)
  {
    UpdateIsWellNamed(o, w.status, w.output, Local("", "", 0, 0));
    HandlingSays(s.side, s.queue, w, current, None, s'.side, s'.queue, false, batch, orders, c);
  }

  /** A flush, after which there may be no batcher any more. */
  lemma FlushConverges(th: Thresholds, s: RunnerState, s': RunnerState, batch: seq<Update>, orders: seq<seq<nat>>,
                       c: HealthCheck, status: string, output: string, i: nat)
    requires WellNamedCheck(c) && WellNamedState(s.side.locals, s.queue)
    requires Converging(th, s, c, status, output, i) && Flushed(s.side, s.queue, s'.side, batch, orders)
    requires s'.queue == Immediate || s'.queue == Queued(map[])
    ensures Converging(th, s', c, status, output, i) && s'.side.locals == s.side.locals
    ensures WellNamedState(s'.side.locals, s'.queue)
    ensures s'.side.server.world.entries[KeyOf(c)].val.check == Said(s.side.server.world.entries, s.queue, c)
  {
    FlushSays(s.side, s.queue, s'.side, batch, orders, c);
  }

  // ---------------------------------------------------------------- the runner converges

  /** The check has had i results. If other checks are heard of too, they are not the catalog's check c. */
  ghost predicate OnCourse(r: CheckRunner, c: HealthCheck, status: string, output: string, i: nat, others: bool)
    reads r, r.client, r.checks, r.checks.repr, r.batcher
  {
    && r.Valid() && WellNamedState(r.checks.view, r.QueueNow())
    && Converging(r.settings.thresholds, r.State(), c, status, output, i)
    && (others ==> Alone(r.checks.view, c) && ArmedForOthers(r.deferCheck, c))
  }

  lemma PutLeavesAlone(v: Locals, k: string, l: Local, c: HealthCheck)
    requires k in v && Alone(v, c)
    ensures Alone(PutLocal(v, k, l), c)
  {
  }

  /** The result that is to be healed. */
  method OwnResult(r: CheckRunner, c: HealthCheck, status: string, output: string, now: int, ghost i: nat,
                   ghost others: bool)
    requires WellNamedCheck(c) && status != c.status && OnCourse(r, c, status, output, i, others)
    modifies r`checksCritical, r`deferCheck, r.client, r.checks.repr, r.batcher
    ensures OnCourse(r, c, status, output, i + 1, others) && r.checks.Objects() == old(r.checks.Objects())
  {
    ghost var s, h := r.State(), HashOf(c);
    ghost var batch, orders;
    var blocked;
    blocked, batch, orders := r.UpdateCheck(HashOf(c), status, output, now);
    ResultSays(r.settings, h, status, output, now, s, r.State(), blocked, batch, orders, c);
    ResultConverges(r.settings, c, status, output, now, i, s, r.State(), blocked, batch, orders);
    if others {
      PutLeavesAlone(s.side.locals, h, LocalOf(r.checks.view[h]), c);
    }
  }

  /** What a result of another check arms is for another check. */
  lemma ArmedMore(d: map<string, DeferredSync>, v: Locals, e: EsmHealthCheck, status: string, output: string,
                  c: HealthCheck)
    requires ArmedForOthers(d, c) && e.hash in v && HashOf(v[e.hash].hc) == e.hash && e.hash != HashOf(c)
    requires WellNamedCheck(v[e.hash].hc) && KeyOf(v[e.hash].hc) != KeyOf(c)
    requires v[e.hash].hc == WithResult(e.listed, v[e.hash].hc.status, v[e.hash].hc.output)
    ensures ArmedForOthers(d[e.hash := DeferredSync(e, status, output)], c)
  {
  }

  /** A result of another check. */
  method OtherResult(r: CheckRunner, k: string, status1: string, output1: string, now: int,
                     ghost c: HealthCheck, ghost status: string, ghost output: string, ghost i: nat)
    requires WellNamedCheck(c) && k != HashOf(c) && OnCourse(r, c, status, output, i, true)
    modifies r`checksCritical, r`deferCheck, r.client, r.checks.repr, r.batcher
    ensures OnCourse(r, c, status, output, i, true) && r.checks.Objects() == old(r.checks.Objects())
  {
    ghost var s := r.State();
    ghost var batch, orders;
    var blocked;
    if k in r.checks.entries {
      StateOf(r, k);
      ArmedMore(r.deferCheck, s.side.locals, r.checks.entries[k], status1, output1, c);
    }
    blocked, batch, orders := r.UpdateCheck(k, status1, output1, now);
    OtherResultConverges(r.settings, k, status1, output1, now, s, r.State(), blocked, batch, orders,
                         c, status, output, i);
  }

  /** The timer of another check's write-back. */
  method OtherTimer(r: CheckRunner, k: string,
                    ghost c: HealthCheck, ghost status: string, ghost output: string, ghost i: nat)
    requires WellNamedCheck(c) && k != HashOf(c) && OnCourse(r, c, status, output, i, true)
    modifies r`deferCheck, r.client, r.checks.repr, r.batcher
    ensures OnCourse(r, c, status, output, i, true) && r.checks.Objects() == old(r.checks.Objects())
  {
    if k in r.deferCheck {
      ghost var s, d := r.State(), r.deferCheck[k];
      ghost var current := r.checks.IsCurrent(d.check);
      ghost var batch, orders := r.FireDeferred(k);
      WriteBackConverges(r.settings.thresholds, d.check.listed, DeferredUpdate(d), current, s, r.State(), batch, orders,
                         c, status, output, i);
    }
  }

  /** A flush. */
  method AnyFlush(r: CheckRunner, ghost c: HealthCheck, ghost status: string, ghost output: string, ghost i: nat,
                  ghost others: bool)
    requires WellNamedCheck(c) && OnCourse(r, c, status, output, i, others)
    modifies r.client, r.checks.repr, r.batcher
    ensures OnCourse(r, c, status, output, i, others) && r.checks.Objects() == old(r.checks.Objects())
    ensures r.QueueNow() == if r.batcher == null then Immediate else Queued(map[])
  {
    ghost var s := r.State();
    ghost var batch, orders := FlushIfBatching(r);
    FlushConverges(r.settings.thresholds, s, r.State(), batch, orders, c, status, output, i);
  }

  /** The batcher stops. */
  method AnyStop(r: CheckRunner, ghost c: HealthCheck, ghost status: string, ghost output: string, ghost i: nat,
                 ghost others: bool)
    requires WellNamedCheck(c) && OnCourse(r, c, status, output, i, others)
    modifies r`batcher, r.client, r.checks.repr, r.batcher
    ensures OnCourse(r, c, status, output, i, others) && r.checks.Objects() == old(r.checks.Objects())
    ensures r.batcher == null
  {
    ghost var s := r.State();
    ghost var batch, orders := r.StopBatcher();
    FlushConverges(r.settings.thresholds, s, r.State(), batch, orders, c, status, output, i);
  }

  /** A timer, a flush or a stop. */
  method TakeNoResult(r: CheckRunner, input: Input, ghost c: HealthCheck, ghost status: string, ghost output: string,
                      ghost i: nat, ghost others: bool)
    requires WellNamedCheck(c) && OnCourse(r, c, status, output, i, others)
    requires Allowed(input, c, status, output, others) && !input.AResult?
    modifies r`deferCheck, r`batcher, r.client, r.checks.repr, r.batcher
    ensures OnCourse(r, c, status, output, i, others)
    ensures r.checks.Objects() == old(r.checks.Objects()) && (r.batcher == old(r.batcher) || r.batcher == null)
  {
    match input {
      case ATimer(h) => OtherTimer(r, h, c, status, output, i);
      case AFlush => AnyFlush(r, c, status, output, i, others);
      case AStop => AnyStop(r, c, status, output, i, others);
    }
  }

  method TakeAllowed(r: CheckRunner, input: Input, c: HealthCheck, ghost status: string, ghost output: string,
                     ghost i: nat, ghost others: bool)
    requires WellNamedCheck(c) && status != c.status && OnCourse(r, c, status, output, i, others)
    requires Allowed(input, c, status, output, others)
    modifies r`checksCritical, r`deferCheck, r`batcher, r.client, r.checks.repr, r.batcher
    ensures OnCourse(r, c, status, output, if IsOwn(input, c) then i + 1 else i, others)
    ensures r.checks.Objects() == old(r.checks.Objects()) && (r.batcher == old(r.batcher) || r.batcher == null)
  {
    if !input.AResult? {
      TakeNoResult(r, input, c, status, output, i, others);
    } else if input.h == HashOf(c) {
      OwnResult(r, c, input.status, input.output, input.now, i, others);
    } else {
      OtherResult(r, input.h, input.status, input.output, input.now, c, status, output, i);
    }
  }

  lemma OneMoreCounted(inputs: seq<Input>, j: nat, c: HealthCheck)
    requires j < |inputs|
    ensures OwnCount(inputs[..j + 1], c)
            == if IsOwn(inputs[j], c) then OwnCount(inputs[..j], c) + 1 else OwnCount(inputs[..j], c)
  {
    assert inputs[..j + 1][..j] == inputs[..j];
  }

  /** Whatever is allowed, in whatever order. */
  method TakeAll(r: CheckRunner, inputs: seq<Input>, c: HealthCheck, ghost status: string, ghost output: string,
                 ghost others: bool)
    requires WellNamedCheck(c) && status != c.status && OnCourse(r, c, status, output, 0, others)
    requires forall input | input in inputs :: Allowed(input, c, status, output, others)
    modifies r`checksCritical, r`deferCheck, r`batcher, r.client, r.checks.repr, r.batcher
    ensures OnCourse(r, c, status, output, OwnCount(inputs, c), others)
    ensures r.checks.Objects() == old(r.checks.Objects()) && (r.batcher == old(r.batcher) || r.batcher == null)
  {
    for j := 0 to |inputs|
      invariant OnCourse(r, c, status, output, OwnCount(inputs[..j], c), others)
      invariant r.checks.Objects() == old(r.checks.Objects()) && (r.batcher == old(r.batcher) || r.batcher == null)
    {
      OneMoreCounted(inputs, j, c);
      TakeAllowed(r, inputs[j], c, status, output, OwnCount(inputs[..j], c), others);
    }
    assert inputs[..|inputs|] == inputs;
  }

  /** After more results than the threshold nothing is being counted any more, and with nothing pending the catalog
      says what is said. */
  lemma HasConverged(th: Thresholds, s: RunnerState, c: HealthCheck, status: string, output: string, i: int)
    requires Converging(th, s, c, status, output, i) && ThresholdFor(th, status) < i
    requires s.queue == Immediate || s.queue == Queued(map[])
    ensures Holds(s.side.server.world.entries, WithResult(c, status, output))
  {
  }

  /** A resync from a list that has the check as the catalog has it. */
  method StartOver(r: CheckRunner, list: seq<HealthCheck>, c: HealthCheck, status: string, output: string,
                   ghost others: bool)
    requires r.InPlace() && r.Valid() && WellNamedState(r.checks.view, r.QueueNow())
    requires c in list && Runnable(c) && DistinctHashes(list) && forall x | x in list :: WellNamedCheck(x)
    requires r.client.script == [] && Holds(r.client.world.entries, c) && status != c.status
    requires others ==>
      ArmedForOthers(r.deferCheck, c) && forall x | x in list && Runnable(x) && x != c :: KeyOf(x) != KeyOf(c)
    modifies r`checksCritical, r.checks.repr, r.probes.repr
    ensures OnCourse(r, c, status, output, 0, others) && fresh(r.checks.repr - old(r.checks.repr))
  {
    ghost var server, q := r.Now().server, r.QueueNow();
    StartsConverging(r.View(), server, q, list, c, status, output, r.settings.minimumInterval, r.settings.thresholds);
    if others {
      ListedAlone(r.View(), list, c, r.settings.minimumInterval);
    }
    r.UpdateChecks(list);
  }

  /** Self-healing. From any state of the runner: after a resync from a list that has the check as the catalog has it,
      more equal results with another status than the threshold, and a flush if there is a batcher, the catalog has
      the new status and output, provided no other writer interferes meanwhile. The runner itself may do anything else
      before, between and after the results: flush, stop its batcher, take results of other checks and write back
      their outputs. */
  method Heal(r: CheckRunner, list: seq<HealthCheck>, c: HealthCheck, status: string, output: string,
              inputs: seq<Input>, ghost others: bool)
    requires r.InPlace() && r.Valid() && WellNamedState(r.checks.view, r.QueueNow())
    requires c in list && Runnable(c) && DistinctHashes(list) && forall x | x in list :: WellNamedCheck(x)
    requires r.client.script == [] && Holds(r.client.world.entries, c) && status != c.status
    requires OwnCount(inputs, c) > ThresholdFor(r.settings.thresholds, status)
    requires forall input | input in inputs :: Allowed(input, c, status, output, others)
    requires others ==>
      ArmedForOthers(r.deferCheck, c) && forall x | x in list && Runnable(x) && x != c :: KeyOf(x) != KeyOf(c)
    modifies r`checksCritical, r`deferCheck, r`batcher, r.client, r.checks.repr, r.probes.repr, r.batcher
    ensures Holds(r.client.world.entries, WithResult(c, status, output))
  {
    StartOver(r, list, c, status, output, others);
    TakeAll(r, inputs, c, status, output, others);
    AnyFlush(r, c, status, output, OwnCount(inputs, c), others);
    HasConverged(r.settings.thresholds, r.State(), c, status, output, OwnCount(inputs, c));
  }
}
