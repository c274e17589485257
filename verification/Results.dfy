/** check.go: what a result of a check does, and which services are reaped, as functions and relations of values. */
module Results {
  import opened Options
  import opened Keys
  import opened Definitions
  import opened Counters
  import opened Resync
  import opened Tracking
  import Store
  import opened Batcher
  import opened Batches
  import opened BatchLaws

  datatype Settings = Settings(
    thresholds: Thresholds, checkUpdateInterval: int, minimumInterval: int, agentless: bool)

  /** What the runner knows, with the server. */
  datatype RunnerState = RunnerState(side: Side, queue: Queue, critical: map<string, int>)

  /** The update that a result makes, with the state before it. */
  function UpdateOf(c: HealthCheck, status: string, output: string, l: Local): Update {
    NewUpdate(c.node, c.serviceID, c.checkID, status, output, l.status, l.output)
  }

  function PutLocal(v: Locals, h: string, l: Local): Locals
    requires h in v
  {
    v[h := WithLocal(v[h], l)]
  }

  /** The critical times with that of h as given. */
  function Recorded(critical: map<string, int>, h: string, at: Option<int>): map<string, int> {
    match at
    case None => critical - {h}
    case Some(t) => critical[h := t]
  }

  lemma RecordedAsIs(critical: map<string, int>, h: string)
    ensures Recorded(critical, h, Get(critical, h)) == critical
  {
  }

  // ---------------------------------------------------------------- UpdateCheck

  /** What UpdateCheck does after an accepted result, from x and q to x' and q': l is the local state with the counters
      moved. A mere change of output is kept, to be written back later; anything else is pushed. */
  ghost predicate Pushed(cfg: Settings, h: string, l: Local, status: string, output: string,
                         x: Side, q: Queue, x': Side, q': Queue,
                         blocked: bool, batch: seq<Update>, orders: seq<seq<nat>>)
    requires h in x.locals
  {
    if cfg.checkUpdateInterval > 0 && l.status == status then
      !blocked && q' == q && x' == x.(locals := PutLocal(x.locals, h, l.(output := output)))
    else
      var l' := if cfg.agentless then l.(status := status, output := output) else l;
      Handled(x.(locals := PutLocal(x.locals, h, l')), q, UpdateOf(x.locals[h].hc, status, output, l), true, Some(h),
              x', q', blocked, batch, orders)
  }

  /** The result is accepted as a mere change of output. */
  predicate Defers(cfg: Settings, l: Local, status: string, output: string) {
    Judge(cfg.thresholds, l, status, output) == Accepted && cfg.checkUpdateInterval > 0 && l.status == status
  }

  /** UpdateCheck, from s to s'. */
  ghost predicate Resulted(cfg: Settings, h: string, status: string, output: string, now: int,
                           s: RunnerState, s': RunnerState, blocked: bool, batch: seq<Update>, orders: seq<seq<nat>>)
  {
    if h !in s.side.locals then s' == s && !blocked
    else
      var l0 := LocalOf(s.side.locals[h]);
      var v := Judge(cfg.thresholds, l0, status, output);
      var l := Count(cfg.thresholds, l0, status, output);
      && s'.critical == Recorded(s.critical, h, TrackCritical(Get(s.critical, h), v, status, now))
      && if v != Accepted then
           !blocked && s'.queue == s.queue && s'.side == s.side.(locals := PutLocal(s.side.locals, h, l))
         else
           Pushed(cfg, h, l, status, output, s.side, s.queue, s'.side, s'.queue, blocked, batch, orders)
  }

  /** Both counters of the check are one less, but not below zero, and that is all. */
  ghost predicate TookBack(v: Locals, v': Locals, h: string)
    requires h in v
  {
    && v'.Keys == v.Keys && (forall k | k in v && k != h :: v'[k] == v[k])
    && v'[h].hc == v[h].hc
    && v'[h].fails == (if v[h].fails == 0 then 0 else v[h].fails - 1)
    && v'[h].succs == (if v[h].succs == 0 then 0 else v[h].succs - 1)
  }

  /** A result that is no news. */
  lemma NoNewsTakesBack(cfg: Settings, h: string, status: string, output: string, now: int,
                        s: RunnerState, s': RunnerState, blocked: bool, batch: seq<Update>, orders: seq<seq<nat>>)
    requires Resulted(cfg, h, status, output, now, s, s', blocked, batch, orders) && h in s.side.locals
    ensures (status, output) == (s.side.locals[h].hc.status, s.side.locals[h].hc.output) ==>
      TookBack(s.side.locals, s'.side.locals, h) && s'.side.server == s.side.server && s'.queue == s.queue && !blocked
  {
  }

  // ---------------------------------------------------------------- when a call never returns

  /** What the caller can see: the result is accepted as more than a mere change of output, and its update fills the
      batch. */
  predicate FillsBatch(cfg: Settings, h: string, status: string, output: string, s: RunnerState) {
    && h in s.side.locals && s.queue.Queued?
    && var l0 := LocalOf(s.side.locals[h]);
       && Judge(cfg.thresholds, l0, status, output) == Accepted && !Defers(cfg, l0, status, output)
       && var u := UpdateOf(s.side.locals[h].hc, status, output, Count(cfg.thresholds, l0, status, output));
          |s.queue.pending[u.key := u]| >= 64
  }

  /** The same state with another future. */
  function Under(s: RunnerState, script: seq<Store.Turn>): RunnerState {
    s.(side := s.side.(server := s.side.server.(script := script)))
  }

  /** There is something the outside can do that makes the call wait for its own lock for ever. */
  ghost predicate MayBlock(cfg: Settings, h: string, status: string, output: string, now: int, s: RunnerState) {
    exists script, s', batch, orders :: Resulted(cfg, h, status, output, now, Under(s, script), s', true, batch, orders)
  }

  /** The checks are under their hashes and the pending updates under their keys. */
  ghost predicate WellKeyed(s: RunnerState) {
    && (forall h | h in s.side.locals :: HashOf(s.side.locals[h].hc) == h)
    && (s.queue.Queued? ==> forall k | k in s.queue.pending :: s.queue.pending[k].key == k)
  }

  /** Whether a call may never return can be told before it: exactly if its update fills the batch. Otherwise it returns
      whatever the outside does. */
  lemma WhenACallBlocks(cfg: Settings, h: string, status: string, output: string, now: int, s: RunnerState)
    requires WellKeyed(s)
    ensures MayBlock(cfg, h, status, output, now, s) <==> FillsBatch(cfg, h, status, output, s)
  {
    if FillsBatch(cfg, h, status, output, s) {
      FullBatchMayBlock(cfg, h, status, output, now, s);
    }
  }

  /** If the batch needs the lock that the caller holds, the call goes no further. */
  lemma NeedingOwnLockBlocks(cfg: Settings, h: string, status: string, output: string, now: int, s: RunnerState,
                             x: Side, batch: seq<Update>, orders: seq<seq<nat>>)
    requires FillsBatch(cfg, h, status, output, s)
    requires var t := s.side.locals[h];
             var l := Count(cfg.thresholds, LocalOf(t), status, output);
             var l' := if cfg.agentless then l.(status := status, output := output) else l;
             var u := UpdateOf(t.hc, status, output, l);
      && x == s.side.(locals := PutLocal(s.side.locals, h, l'))
      && Enumerates(batch, s.queue.pending[u.key := u]) && batch != []
      && ProcessNeedsLock(x, batch, orders, h)
    ensures exists s' :: Resulted(cfg, h, status, output, now, s, s', true, batch, orders)
  {
    var t := s.side.locals[h];
    var u := UpdateOf(t.hc, status, output, Count(cfg.thresholds, LocalOf(t), status, output));
    var critical := Recorded(s.critical, h, TrackCritical(Get(s.critical, h), Accepted, status, now));
    var s' := RunnerState(x, Queued(map[]), critical);
    assert Handled(x, s.queue, u, true, Some(h), x, Queued(map[]), true, batch, orders);
    assert Resulted(cfg, h, status, output, now, s, s', true, batch, orders);
  }

  lemma FullBatchMayBlock(cfg: Settings, h: string, status: string, output: string, now: int, s: RunnerState)
    requires WellKeyed(s) && FillsBatch(cfg, h, status, output, s)
    ensures MayBlock(cfg, h, status, output, now, s)
  {
    var t := s.side.locals[h];
    var l := Count(cfg.thresholds, LocalOf(t), status, output);
    var u := UpdateOf(t.hc, status, output, l);
    var l' := if cfg.agentless then l.(status := status, output := output) else l;
    var batch := EnumerationFrom(u, s.queue.pending[u.key := u]);
    var v := Store.CheckVal(t.hc);
    var script := seq(|batch| + 3, _ => Meddling(Target(u), v));
    var x := Under(s, script).side.(locals := PutLocal(s.side.locals, h, l'));
    MeddlingNeedsLock(x, batch, v);
    NeedingOwnLockBlocks(cfg, h, status, output, now, Under(s, script), x, batch, [[0]]);
  }

  /** It is enough that the server is out of reach, if the check has an old state to go back to. */
  lemma CallsDoBlock(cfg: Settings, h: string, status: string, output: string, now: int,
                     s: RunnerState, s': RunnerState, blocked: bool, batch: seq<Update>, orders: seq<seq<nat>>)
    requires Resulted(cfg, h, status, output, now, s, s', blocked, batch, orders)
    requires FillsBatch(cfg, h, status, output, s) && OutOfReach(s.side.server.script, |batch|)
    requires var hc := s.side.locals[h].hc; HashOf(hc) == h && (hc.status != "" || hc.output != "")
    ensures blocked
  {
    var t := s.side.locals[h];
    var l := Count(cfg.thresholds, LocalOf(t), status, output);
    var u := UpdateOf(t.hc, status, output, l);
    assert s.queue.pending[u.key := u][u.key] == u && u in batch;
    var l' := if cfg.agentless then l.(status := status, output := output) else l;
    UnreachableNeedsLock(s.side.(locals := PutLocal(s.side.locals, h, l')), batch, orders, u);
  }

  /** An immediate push that is not known to have succeeded: the same result will be news again exactly in a runner
      with agents. One without agents and without a batcher has changed its local state already and does not come back
      to it. */
  lemma FailedPushIsNoticed(cfg: Settings, h: string, status: string, output: string, now: int,
                            s: RunnerState, s': RunnerState, blocked: bool, batch: seq<Update>, orders: seq<seq<nat>>)
    requires Resulted(cfg, h, status, output, now, s, s', blocked, batch, orders)
    requires h in s.side.locals && HashOf(s.side.locals[h].hc) == h && s.queue == Immediate
    requires var l0 := LocalOf(s.side.locals[h]);
      && Judge(cfg.thresholds, l0, status, output) == Accepted && !Defers(cfg, l0, status, output)
      && PushOne(s.side.server, UpdateOf(s.side.locals[h].hc, status, output, l0)).1 != Sent(Store.Reply(true, []))
    ensures h in s'.side.locals
    ensures Judge(cfg.thresholds, LocalOf(s'.side.locals[h]), status, output) != Idempotent <==> !cfg.agentless
  {
    var l0 := LocalOf(s.side.locals[h]);
    var l := Count(cfg.thresholds, l0, status, output);
    assert UpdateOf(s.side.locals[h].hc, status, output, l) == UpdateOf(s.side.locals[h].hc, status, output, l0);
  }

  /** An accepted change that is sent and does not fill the batch waits there, with the state before it, and the local
      state is ahead of the catalog. */
  lemma ResultIsQueued(cfg: Settings, h: string, status: string, output: string, now: int,
                       s: RunnerState, s': RunnerState, blocked: bool, batch: seq<Update>, orders: seq<seq<nat>>)
    requires cfg.agentless && s.queue.Queued? && h in s.side.locals && HashOf(s.side.locals[h].hc) == h
    requires Resulted(cfg, h, status, output, now, s, s', blocked, batch, orders)
    requires var hc := s.side.locals[h].hc;
      && Judge(cfg.thresholds, LocalOf(s.side.locals[h]), status, output) == Accepted
      && (cfg.checkUpdateInterval <= 0 || hc.status != status)
    requires !FillsBatch(cfg, h, status, output, s)
    ensures var hc := s.side.locals[h].hc; var key := MakeCheckKey(hc.node, hc.checkID);
      && s'.queue.Queued? && key in s'.queue.pending
      && var u := s'.queue.pending[key];
         && u.hash == h && (u.status, u.output) == (status, output)
         && (u.oldStatus, u.oldOutput) == (hc.status, hc.output)
    ensures h in s'.side.locals
    ensures s'.side.locals[h].hc.status == status && s'.side.locals[h].hc.output == output
  {
  }

  /** What a failed flush does to it: if the transaction that it is in fails plainly, or its node cannot be fetched, the
      check is back in the state before the result, so that the result counts anew. */
  lemma FailedFlushUndoes(cfg: Settings, h: string, status: string, output: string, now: int,
                          s: RunnerState, s': RunnerState, blocked: bool, batch1: seq<Update>, orders1: seq<seq<nat>>,
                          batch: seq<Update>, orders: seq<seq<nat>>)
    requires cfg.agentless && s.queue.Queued? && h in s.side.locals && HashOf(s.side.locals[h].hc) == h
    requires Resulted(cfg, h, status, output, now, s, s', blocked, batch1, orders1)
    requires var hc := s.side.locals[h].hc;
      && Judge(cfg.thresholds, LocalOf(s.side.locals[h]), status, output) == Accepted
      && (cfg.checkUpdateInterval <= 0 || hc.status != status)
      && (hc.status != "" || hc.output != "")
    requires !FillsBatch(cfg, h, status, output, s)
    requires s'.queue.Queued? && Enumerates(batch, s'.queue.pending) && SeparateHashes(batch)
    requires forall u | u in batch && u.hash == h :: FailsFor(s'.side, batch, orders, u)
    ensures var v, hc := Process(s'.side, batch, orders).0.locals, s.side.locals[h].hc;
      h in v && (v[h].hc.status, v[h].hc.output) == (hc.status, hc.output)
  {
    ResultIsQueued(cfg, h, status, output, now, s, s', blocked, batch1, orders1);
    var hc := s.side.locals[h].hc;
    var u := s'.queue.pending[MakeCheckKey(hc.node, hc.checkID)];
    assert u in batch;
    FailedIsBack(s'.side, batch, orders, u);
  }

  // ---------------------------------------------------------------- what every step keeps

  /** Counters are within their thresholds, and only tracked checks are recorded as critical. */
  ghost predicate InBounds(v: Locals, critical: map<string, int>, th: Thresholds) {
    critical.Keys <= v.Keys && forall h | h in v :: Bounded(th, LocalOf(v[h]))
  }

  /** Whatever is pending has news. */
  ghost predicate AllNews(q: Queue) {
    q.Queued? ==> forall k | k in q.pending :: HasNews(q.pending[k])
  }

  ghost predicate Orderly(cfg: Settings, s: RunnerState) {
    InBounds(s.side.locals, s.critical, cfg.thresholds) && AllNews(s.queue)
  }

  lemma HandlingKeepsOrder(cfg: Settings, x: Side, q: Queue, critical: map<string, int>, u: Update, current: bool,
                           holding: Option<string>, x': Side, q': Queue,
                           blocked: bool, batch: seq<Update>, orders: seq<seq<nat>>)
    requires InBounds(x.locals, critical, cfg.thresholds) && HasNews(u)
    requires Handled(x, q, u, current, holding, x', q', blocked, batch, orders)
    ensures InBounds(x'.locals, critical, cfg.thresholds) && (AllNews(q) ==> AllNews(q'))
  {
  }

  lemma PushKeepsOrder(cfg: Settings, h: string, l: Local, status: string, output: string, critical: map<string, int>,
                       x: Side, q: Queue, x': Side, q': Queue, blocked: bool, batch: seq<Update>, orders: seq<seq<nat>>)
    requires InBounds(x.locals, critical, cfg.thresholds)
    requires h in x.locals && Bounded(cfg.thresholds, l) && (l.status, l.output) != (status, output)
    requires Pushed(cfg, h, l, status, output, x, q, x', q', blocked, batch, orders)
    ensures InBounds(x'.locals, critical, cfg.thresholds) && x'.locals.Keys == x.locals.Keys
    ensures AllNews(q) ==> AllNews(q')
  {
    if !(cfg.checkUpdateInterval > 0 && l.status == status) {
      var l' := if cfg.agentless then l.(status := status, output := output) else l;
      HandlingKeepsOrder(cfg, x.(locals := PutLocal(x.locals, h, l')), q, critical,
                         UpdateOf(x.locals[h].hc, status, output, l), true, Some(h), x', q', blocked, batch, orders);
    }
  }

  /** A result keeps everything in order, even one whose call never returns. */
  lemma ResultsKeepOrder(cfg: Settings, h: string, status: string, output: string, now: int,
                         s: RunnerState, s': RunnerState, blocked: bool, batch: seq<Update>, orders: seq<seq<nat>>)
    requires InBounds(s.side.locals, s.critical, cfg.thresholds)
    requires Resulted(cfg, h, status, output, now, s, s', blocked, batch, orders)
    ensures InBounds(s'.side.locals, s'.critical, cfg.thresholds) && s'.side.locals.Keys == s.side.locals.Keys
    ensures Orderly(cfg, s) ==> Orderly(cfg, s')
  {
    if h in s.side.locals {
      var l0 := LocalOf(s.side.locals[h]);
      var l := Count(cfg.thresholds, l0, status, output);
      if Judge(cfg.thresholds, l0, status, output) == Accepted {
        PushKeepsOrder(cfg, h, l, status, output, s'.critical, s.side, s.queue, s'.side, s'.queue,
                       blocked, batch, orders);
      }
    }
  }

  /** An emptied queue, and no change but of states. */
  lemma FlushKeepsOrder(cfg: Settings, s: RunnerState, s': RunnerState)
    requires Orderly(cfg, s) && SameButState(s.side.locals, s'.side.locals) && s'.critical == s.critical
    requires s'.queue == Immediate || s'.queue == Queued(map[])
    ensures Orderly(cfg, s')
  {
  }

  lemma ResyncStaysInBounds(t: Table, list: seq<HealthCheck>, minimum: int, th: Thresholds)
    requires InBounds(t.checks, t.critical, th)
    ensures InBounds(Resynced(t, list, minimum).checks, Resynced(t, list, minimum).critical, th)
  {
    CountersAreKept(t, list, minimum);
    ListedAreTracked(t, list, minimum);
    CriticalIsKept(t, list, minimum);
  }

  // ---------------------------------------------------------------- names

  /** The node has no slash in its name, and the catalog finds the check under its own id. */
  ghost predicate WellNamedCheck(c: HealthCheck) {
    NoSlash(c.node) && Unprefixed(c.node, c.checkID)
  }

  /** Tracked checks and pending updates are well named, and the former are under their hashes. */
  ghost predicate WellNamedState(v: Locals, q: Queue) {
    && (forall h | h in v :: WellNamedCheck(v[h].hc) && HashOf(v[h].hc) == h)
    && (q.Queued? ==> forall k | k in q.pending :: WellNamed(q.pending[k]) && q.pending[k].key == k)
  }

  lemma UpdateIsWellNamed(c: HealthCheck, status: string, output: string, l: Local)
    requires WellNamedCheck(c)
    ensures WellNamed(UpdateOf(c, status, output, l))
    ensures Target(UpdateOf(c, status, output, l)) == Store.CheckKey(c.node, c.checkID)
  {
    var u := UpdateOf(c, status, output, l);
    assert u == NewUpdate(u.node, c.serviceID, u.checkID, u.status, u.output, u.oldStatus, u.oldOutput);
    LookupIsIdentity(c.node, c.checkID);
  }

  lemma HandlingKeepsNames(x: Side, q: Queue, u: Update, current: bool, holding: Option<string>,
                           x': Side, q': Queue, blocked: bool, batch: seq<Update>, orders: seq<seq<nat>>)
    requires WellNamedState(x.locals, q) && WellNamed(u)
    requires Handled(x, q, u, current, holding, x', q', blocked, batch, orders)
    ensures WellNamedState(x'.locals, q')
    ensures SeparateTargets(batch)
  {
    if batch != [] {
      WellNamedTargets(batch);
    }
  }

  lemma ResultsKeepNames(cfg: Settings, h: string, status: string, output: string, now: int,
                         s: RunnerState, s': RunnerState, blocked: bool, batch: seq<Update>, orders: seq<seq<nat>>)
    requires WellNamedState(s.side.locals, s.queue)
    requires Resulted(cfg, h, status, output, now, s, s', blocked, batch, orders)
    ensures WellNamedState(s'.side.locals, s'.queue)
  {
    if h in s.side.locals {
      var t := s.side.locals[h];
      var l := Count(cfg.thresholds, LocalOf(t), status, output);
      UpdateIsWellNamed(t.hc, status, output, l);
      if Judge(cfg.thresholds, LocalOf(t), status, output) == Accepted && !Defers(cfg, LocalOf(t), status, output) {
        var l' := if cfg.agentless then l.(status := status, output := output) else l;
        HandlingKeepsNames(s.side.(locals := PutLocal(s.side.locals, h, l')), s.queue,
                           UpdateOf(t.hc, status, output, l), true, Some(h), s'.side, s'.queue,
                           blocked, batch, orders);
      }
    }
  }

  lemma {:induction false} SnapshotKeepsNames(t: Table, list: seq<HealthCheck>, minimum: int, q: Queue)
    requires WellNamedState(t.checks, q) && forall c | c in list :: WellNamedCheck(c)
    ensures WellNamedState(ResyncAll(t, list, minimum).checks, q)
  {
    if list != [] {
      SnapshotKeepsNames(t, list[..|list| - 1], minimum, q);
      assert list[|list| - 1] in list;
    }
  }

  lemma ResyncKeepsNames(t: Table, list: seq<HealthCheck>, minimum: int, q: Queue)
    requires WellNamedState(t.checks, q) && forall c | c in list :: WellNamedCheck(c)
    ensures WellNamedState(Resynced(t, list, minimum).checks, q)
  {
    SnapshotKeepsNames(t, list, minimum, q);
  }

  // ---------------------------------------------------------------- reaping services

  /** One attempt to deregister a service, for the sake of check `hash`, at a time. */
  datatype Attempt = Attempt(hash: string, node: string, service: string, at: int, ok: bool)

  /** The check is tracked, belongs to that service, and was critical for longer than its timeout. */
  ghost predicate Due(v: Locals, critical: map<string, int>, a: Attempt) {
    && a.hash in critical && a.hash in v
    && (a.node, a.service) == IdOf(v, a.hash) && a.service != ""
    && 0 < v[a.hash].hc.definition.deregisterAfterDuration < a.at - critical[a.hash]
  }

  ghost predicate AllDue(v: Locals, critical: map<string, int>, attempts: seq<Attempt>) {
    forall i | 0 <= i < |attempts| :: Due(v, critical, attempts[i])
  }

  /** The service of a tracked check. */
  function IdOf(v: Locals, h: string): (string, string)
    requires h in v
  {
    (v[h].hc.node, v[h].hc.serviceID)
  }

  /** Due whenever one looks. */
  ghost predicate AlwaysDue(v: Locals, critical: map<string, int>, h: string, clock: nat -> int) {
    && h in critical && h in v && v[h].hc.serviceID != ""
    && forall i :: 0 < v[h].hc.definition.deregisterAfterDuration < clock(i) - critical[h]
  }

  /** The check is dealt with: its service is known to be deregistered, or there was an attempt for its own sake. */
  ghost predicate DealtWith(v: Locals, attempts: seq<Attempt>, h: string)
    requires h in v
  {
    exists i :: 0 <= i < |attempts|
      && (attempts[i].hash == h || (attempts[i].ok && (attempts[i].node, attempts[i].service) == IdOf(v, h)))
  }

  lemma DealtWithLasts(v: Locals, attempts: seq<Attempt>, a: Attempt, h: string)
    requires h in v && (DealtWith(v, attempts, h) || a.hash == h)
    ensures DealtWith(v, attempts + [a], h)
  {
    if DealtWith(v, attempts, h) {
      var i :| 0 <= i < |attempts|
        && (attempts[i].hash == h || (attempts[i].ok && (attempts[i].node, attempts[i].service) == IdOf(v, h)));
      assert (attempts + [a])[i] == attempts[i];
    } else {
      assert (attempts + [a])[|attempts|] == a;
    }
  }

  /** After a success there is no further attempt for the same service. */
  ghost predicate OneSuccessEach(attempts: seq<Attempt>) {
    forall i, j | 0 <= i < j < |attempts| && attempts[i].ok ::
      (attempts[i].node, attempts[i].service) != (attempts[j].node, attempts[j].service)
  }

  /** The attempts of a pass so far, with the services known to be deregistered. */
  ghost predicate ReapedSoFar(v: Locals, critical: map<string, int>, attempts: seq<Attempt>,
                              reaped: set<(string, string)>)
  {
    && AllDue(v, critical, attempts) && OneSuccessEach(attempts)
    && (forall i | 0 <= i < |attempts| && attempts[i].ok :: (attempts[i].node, attempts[i].service) in reaped)
    && (forall id | id in reaped ::
          exists i :: 0 <= i < |attempts| && attempts[i].ok && (attempts[i].node, attempts[i].service) == id)
  }

  lemma OneMoreReaped(v: Locals, critical: map<string, int>, attempts: seq<Attempt>, reaped: set<(string, string)>,
                      a: Attempt)
    requires ReapedSoFar(v, critical, attempts, reaped) && Due(v, critical, a) && (a.node, a.service) !in reaped
    ensures ReapedSoFar(v, critical, attempts + [a], if a.ok then reaped + {(a.node, a.service)} else reaped)
    ensures forall h | h in v && (DealtWith(v, attempts, h) || a.hash == h) :: DealtWith(v, attempts + [a], h)
  {
    var more := attempts + [a];
    forall h | h in v && (DealtWith(v, attempts, h) || a.hash == h) ensures DealtWith(v, more, h) {
      DealtWithLasts(v, attempts, a, h);
    }
    forall id | id in reaped || (a.ok && id == (a.node, a.service))
      ensures exists i :: 0 <= i < |more| && more[i].ok && (more[i].node, more[i].service) == id
    {
      if id in reaped {
        var i :| 0 <= i < |attempts| && attempts[i].ok && (attempts[i].node, attempts[i].service) == id;
        assert more[i] == attempts[i];
      } else {
        assert more[|attempts|] == a;
      }
    }
  }
}
