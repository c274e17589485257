/** check.go, batcher.go: what the catalog and the batcher together say of each check, and that with nobody
    interfering only an update of the check itself changes that: neither other updates, nor full batches, nor flushes
    do. */
module Quiet {
  import opened Options
  import opened Keys
  import opened Definitions
  import opened Counters
  import opened Store
  import opened Batcher
  import opened Batches
  import opened BatchLaws
  import opened Tracking
  import opened Results

  function KeyOf(c: HealthCheck): Key {
    CheckKey(c.node, c.checkID)
  }

  /** What the catalog will say of the check when all that is pending has been written. */
  function Said(e: Entries, q: Queue, c: HealthCheck): HealthCheck
    requires KeyOf(c) in e
  {
    var val := e[KeyOf(c)].val;
    var key := MakeCheckKey(c.node, c.checkID);
    if q.Queued? && key in q.pending then Edited(val, q.pending[key]).check else val.check
  }

  function WithResult(c: HealthCheck, status: string, output: string): HealthCheck {
    c.(status := status, output := output)
  }

  /** A flush, from x and q to x', if there is a batcher. */
  ghost predicate Flushed(x: Side, q: Queue, x': Side, batch: seq<Update>, orders: seq<seq<nat>>) {
    match q
    case Immediate => x' == x
    case Queued(pending) => Enumerates(batch, pending) && x' == Process(x, batch, orders).0
  }

  lemma KeyMeansTarget(u: Update, c: HealthCheck)
    requires WellNamed(u) && WellNamedCheck(c)
    ensures u.key == MakeCheckKey(c.node, c.checkID) <==> Target(u) == KeyOf(c)
  {
    MakeCheckKeyInjective(u.node, u.checkID, c.node, c.checkID);
    LookupIsIdentity(u.node, u.checkID);
  }

  /** Writing a batch of what is pending makes the catalog say all of it, and changes nothing else. */
  lemma BatchSays(e: Entries, e': Entries, pending: map<string, Update>, batch: seq<Update>, c: HealthCheck)
    requires Enumerates(batch, pending) && forall k | k in pending :: WellNamed(pending[k]) && pending[k].key == k
    requires Wrote(e, e', batch) && WellNamedCheck(c) && KeyOf(c) in e
    ensures e'[KeyOf(c)].val.check == Said(e, Queued(pending), c)
  {
    var key := MakeCheckKey(c.node, c.checkID);
    if key in pending {
      KeyMeansTarget(pending[key], c);
      assert pending[key] in batch;
    } else {
      forall u | u in batch ensures Target(u) != KeyOf(c) {
        KeyMeansTarget(u, c);
      }
    }
  }

  /** A flush, with nobody interfering: the catalog says what was said before, whatever others made of it until then,
      and no local state changes. */
  lemma FlushSays(x: Side, q: Queue, x': Side, batch: seq<Update>, orders: seq<seq<nat>>, c: HealthCheck)
    requires x.server.script == [] && WellNamedState(x.locals, q) && Flushed(x, q, x', batch, orders)
    requires WellNamedCheck(c) && KeyOf(c) in x.server.world.entries
    ensures x'.server.script == [] && x'.locals == x.locals && KeyOf(c) in x'.server.world.entries
    ensures x'.server.world.entries[KeyOf(c)].val.check == Said(x.server.world.entries, q, c)
  {
    if q.Queued? {
      WellNamedTargets(batch);
      QuietBatchIsWritten(x, batch, orders);
      BatchSays(x.server.world.entries, x'.server.world.entries, q.pending, batch, c);
    }
  }

  lemma QueuedSays(e: Entries, pending: map<string, Update>, u: Update, c: HealthCheck)
    requires WellNamed(u) && WellNamedCheck(c) && KeyOf(c) in e
    ensures Said(e, Queued(pending[u.key := u]), c)
            == if Target(u) == KeyOf(c) then WithResult(Said(e, Queued(pending), c), u.status, u.output)
               else Said(e, Queued(pending), c)
  {
    KeyMeansTarget(u, c);
  }

  lemma PushSays(s: Server, u: Update, c: HealthCheck)
    requires s.script == [] && KeyOf(c) in s.world.entries
    ensures var (s', p) := PushOne(s, u);
      && s'.script == [] && KeyOf(c) in s'.world.entries && (Took(p) <==> Target(u) in s.world.entries)
      && s'.world.entries[KeyOf(c)].val.check
         == if Target(u) == KeyOf(c) then WithResult(s.world.entries[KeyOf(c)].val.check, u.status, u.output)
            else s.world.entries[KeyOf(c)].val.check
  {
    QuietPush(s, u);
    assert u in [u] && forall w | w in [u] :: w == u;
  }

  /** An update, with nobody interfering, whether it is pushed, queued or fills a batch: of its own check the new
      status and output are said, of every other check what was said before. The call does not block, and no local
      state changes but that the update's own follows an immediate push. */
  lemma HandlingSays(x: Side, q: Queue, u: Update, current: bool, holding: Option<string>,
                     x': Side, q': Queue, blocked: bool, batch: seq<Update>, orders: seq<seq<nat>>, c: HealthCheck)
    requires x.server.script == [] && WellNamedState(x.locals, q) && WellNamed(u)
    requires Handled(x, q, u, current, holding, x', q', blocked, batch, orders)
    requires WellNamedCheck(c) && KeyOf(c) in x.server.world.entries
    ensures !blocked && x'.server.script == [] && KeyOf(c) in x'.server.world.entries && (q'.Queued? <==> q.Queued?)
    ensures WellNamedState(x'.locals, q')
    ensures var before := Said(x.server.world.entries, q, c);
      Said(x'.server.world.entries, q', c)
      == if Target(u) == KeyOf(c) then WithResult(before, u.status, u.output) else before
    ensures x'.locals == if q == Immediate && current && Target(u) in x.server.world.entries then Follow(x.locals, u)
                         else x.locals
  {
    HandlingKeepsNames(x, q, u, current, holding, x', q', blocked, batch, orders);
    var e, e' := x.server.world.entries, x'.server.world.entries;
    match q {
      case Immediate =>
        PushSays(x.server, u, c);
      case Queued(pending) =>
        var more := pending[u.key := u];
        QueuedSays(e, pending, u, c);
        if |more| >= MAX_TXN_OPS {
          QuietBatchIsWritten(x, batch, orders);
          assert WellNamedState(x.locals, Queued(more));
          BatchSays(e, e', more, batch, c);
        }
    }
  }

  /** The local state of a check after a result, if nobody interferes. */
  function AfterResult(cfg: Settings, l0: Local, status: string, output: string, listed: bool): Local {
    var l := Count(cfg.thresholds, l0, status, output);
    if Judge(cfg.thresholds, l0, status, output) != Accepted then l
    else if Defers(cfg, l0, status, output) then l.(output := output)
    else if cfg.agentless || listed then l.(status := status, output := output)
    else l
  }

  /** The result is accepted as more than a mere change of output. */
  predicate IsSent(cfg: Settings, l: Local, status: string, output: string) {
    Judge(cfg.thresholds, l, status, output) == Accepted && (cfg.checkUpdateInterval <= 0 || l.status != status)
  }

  /** An accepted result that was put off, or reached a check in the catalog, or is of a runner without agents, is no
      news when it comes again. */
  lemma AcceptedIsNoNews(cfg: Settings, l0: Local, status: string, output: string, listed: bool)
    requires Judge(cfg.thresholds, l0, status, output) == Accepted
    requires !IsSent(cfg, l0, status, output) || cfg.agentless || listed
    ensures Judge(cfg.thresholds, AfterResult(cfg, l0, status, output, listed), status, output) == Idempotent
  {
  }

  lemma PutLocalMeans(v: Locals, k: string, l: Local)
    requires k in v
    ensures PutLocal(v, k, l).Keys == v.Keys && LocalOf(PutLocal(v, k, l)[k]) == l
    ensures PutLocal(v, k, l)[k].hc == WithResult(v[k].hc, l.status, l.output)
    ensures forall h | h in v && h != k :: PutLocal(v, k, l)[h] == v[h]
  {
  }

  lemma PutKeepsNames(v: Locals, q: Queue, k: string, l: Local)
    requires k in v && WellNamedState(v, q)
    ensures WellNamedState(PutLocal(v, k, l), q)
  {
  }

  lemma FollowPut(v: Locals, k: string, l: Local, u: Update)
    requires k in v && u.hash == k
    ensures Follow(PutLocal(v, k, l), u) == PutLocal(v, k, l.(status := u.status, output := u.output))
  {
  }

  /** A result that is sent. */
  lemma SentSays(cfg: Settings, k: string, status: string, output: string, now: int, s: RunnerState, s': RunnerState,
                 blocked: bool, batch: seq<Update>, orders: seq<seq<nat>>, c: HealthCheck)
    requires s.side.server.script == [] && WellNamedState(s.side.locals, s.queue) && (s.queue.Queued? ==> cfg.agentless)
    requires k in s.side.locals && IsSent(cfg, LocalOf(s.side.locals[k]), status, output)
    requires Resulted(cfg, k, status, output, now, s, s', blocked, batch, orders)
    requires WellNamedCheck(c) && KeyOf(c) in s.side.server.world.entries
    ensures !blocked && s'.side.server.script == [] && KeyOf(c) in s'.side.server.world.entries
    ensures (s'.queue.Queued? <==> s.queue.Queued?) && WellNamedState(s'.side.locals, s'.queue)
    ensures var t := s.side.locals[k];
      && s'.side.locals == PutLocal(s.side.locals, k, AfterResult(cfg, LocalOf(t), status, output,
                                                                  KeyOf(t.hc) in s.side.server.world.entries))
      && var before := Said(s.side.server.world.entries, s.queue, c);
         Said(s'.side.server.world.entries, s'.queue, c)
         == if KeyOf(t.hc) == KeyOf(c) then WithResult(before, status, output) else before
  {
    var t := s.side.locals[k];
    var l := Count(cfg.thresholds, LocalOf(t), status, output);
    UpdateIsWellNamed(t.hc, status, output, l);
    var l' := if cfg.agentless then l.(status := status, output := output) else l;
    PutKeepsNames(s.side.locals, s.queue, k, l');
    FollowPut(s.side.locals, k, l', UpdateOf(t.hc, status, output, l));
    HandlingSays(s.side.(locals := PutLocal(s.side.locals, k, l')), s.queue, UpdateOf(t.hc, status, output, l),
                 true, Some(k), s'.side, s'.queue, blocked, batch, orders, c);
  }

  /** A result, with nobody interfering: the call does not block, only the check's own local state changes, and of every
      check is said what was said before, but that a result that is sent has its say of its own. */
  lemma ResultSays(cfg: Settings, k: string, status: string, output: string, now: int, s: RunnerState, s': RunnerState,
                   blocked: bool, batch: seq<Update>, orders: seq<seq<nat>>, c: HealthCheck)
    requires s.side.server.script == [] && WellNamedState(s.side.locals, s.queue) && (s.queue.Queued? ==> cfg.agentless)
    requires k in s.side.locals && Resulted(cfg, k, status, output, now, s, s', blocked, batch, orders)
    requires WellNamedCheck(c) && KeyOf(c) in s.side.server.world.entries
    ensures !blocked && s'.side.server.script == [] && KeyOf(c) in s'.side.server.world.entries
    ensures (s'.queue.Queued? <==> s.queue.Queued?) && WellNamedState(s'.side.locals, s'.queue)
    ensures var t := s.side.locals[k];
      && s'.side.locals == PutLocal(s.side.locals, k, AfterResult(cfg, LocalOf(t), status, output,
                                                                  KeyOf(t.hc) in s.side.server.world.entries))
      && var before := Said(s.side.server.world.entries, s.queue, c);
         Said(s'.side.server.world.entries, s'.queue, c)
         == if IsSent(cfg, LocalOf(t), status, output) && KeyOf(t.hc) == KeyOf(c)
            then WithResult(before, status, output) else before
  {
    if IsSent(cfg, LocalOf(s.side.locals[k]), status, output) {
      SentSays(cfg, k, status, output, now, s, s', blocked, batch, orders, c);
    }
  }
}
