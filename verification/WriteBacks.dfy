/** check.go: the write-back of an output, which nothing calls off once it is armed. */
module WriteBacks {
  import opened Options
  import opened Definitions
  import opened Counters
  import opened Tracking
  import opened Batcher
  import opened Batches
  import opened Results
  import opened Quiet
  import opened Runner

  /** A write-back and a flush, with nobody interfering, whatever is or was pending: the catalog ends up saying what the
      write-back was armed with. */
  lemma WriteBackWins(x: Side, q: Queue, w: Update, current: bool,
                      x1: Side, q1: Queue, blocked: bool, batch1: seq<Update>, orders1: seq<seq<nat>>,
                      x2: Side, batch2: seq<Update>, orders2: seq<seq<nat>>, c: HealthCheck)
    requires x.server.script == [] && WellNamedState(x.locals, q) && WellNamed(w)
    requires WellNamedCheck(c) && Target(w) == KeyOf(c) && KeyOf(c) in x.server.world.entries
    requires Handled(x, q, w, current, None, x1, q1, blocked, batch1, orders1)
    requires Flushed(x1, q1, x2, batch2, orders2)
    ensures KeyOf(c) in x2.server.world.entries
    ensures x2.server.world.entries[KeyOf(c)].val.check
            == WithResult(Said(x.server.world.entries, q, c), w.status, w.output)
    ensures x2.locals == if q == Immediate && current then Follow(x.locals, w) else x.locals
  {
    HandlingSays(x, q, w, current, None, x1, q1, blocked, batch1, orders1, c);
    FlushSays(x1, q1, x2, batch2, orders2, c);
  }

  /** So whenever a write-back goes off, be it while a change of status waits in the batcher or at any time after that
      was flushed, the catalog and the local state agree afterwards exactly if it was armed with the status that the
      check has now, or the local state follows it. */
  lemma WhenAWriteBackAgrees(x: Side, q: Queue, w: Update, current: bool,
                             x1: Side, q1: Queue, blocked: bool, batch1: seq<Update>, orders1: seq<seq<nat>>,
                             x2: Side, batch2: seq<Update>, orders2: seq<seq<nat>>)
    requires x.server.script == [] && WellNamedState(x.locals, q) && WellNamed(w)
    requires w.hash in x.locals && Target(w) == KeyOf(x.locals[w.hash].hc) && Target(w) in x.server.world.entries
    requires Handled(x, q, w, current, None, x1, q1, blocked, batch1, orders1)
    requires Flushed(x1, q1, x2, batch2, orders2)
    ensures w.hash in x2.locals && Target(w) in x2.server.world.entries
    ensures x2.server.world.entries[Target(w)].val.check.status == x2.locals[w.hash].hc.status
            <==> w.status == x.locals[w.hash].hc.status || (q == Immediate && current)
  {
    WriteBackWins(x, q, w, current, x1, q1, blocked, batch1, orders1, x2, batch2, orders2, x.locals[w.hash].hc);
  }

  method FlushIfBatching(r: CheckRunner) returns (ghost batch: seq<Update>, ghost orders: seq<seq<nat>>)
    requires r.Valid()
    modifies r.client, r.checks.repr, r.batcher
    ensures r.Valid() && r.checks.Objects() == old(r.checks.Objects())
    ensures r.QueueNow() == if r.batcher == null then Immediate else Queued(map[])
    ensures Flushed(old(r.Now()), old(r.QueueNow()), r.Now(), batch, orders)
  {
    batch, orders := [], [];
    if r.batcher != null {
      batch, orders := r.FlushPending();
    }
  }

  /** The timer of a write-back goes off, at any time, and the batcher is flushed. */
  method FireAndFlush(r: CheckRunner, h: string)
    requires r.Valid() && r.batcher != null && h in r.deferCheck
    requires r.client.script == [] && WellNamedState(r.checks.view, r.QueueNow())
    requires var c := r.deferCheck[h].check.listed; WellNamedCheck(c) && KeyOf(c) in r.client.world.entries
    modifies r`deferCheck, r.client, r.checks.repr, r.batcher
    ensures r.Valid() && r.deferCheck == old(r.deferCheck) - {h} && r.checks.Objects() == old(r.checks.Objects())
    ensures r.checks.view == old(r.checks.view)
    ensures var d := old(r.deferCheck)[h]; var k := KeyOf(d.check.listed);
      && k in r.client.world.entries
      && var held := r.client.world.entries[k].val.check; (held.status, held.output) == (d.status, d.output)
  {
    ghost var x, q, d := r.Now(), r.QueueNow(), r.deferCheck[h];
    ghost var current := r.checks.IsCurrent(d.check);
    ghost var batch1, orders1 := r.FireDeferred(h);
    ghost var x1, q1 := r.Now(), r.QueueNow();
    ghost var batch2, orders2 := FlushIfBatching(r);
    UpdateIsWellNamed(d.check.listed, d.status, d.output, Local("", "", 0, 0));
    WriteBackWins(x, q, DeferredUpdate(d), current, x1, q1, false, batch1, orders1, r.Now(), batch2, orders2,
                  d.check.listed);
  }

  // ---------------------------------------------------------------- a run that leaves the catalog behind

  /** The local state after a new output for the old status was accepted and put off. */
  function PutOff(th: Thresholds, l: Local, output: string): Local {
    Count(th, l, l.status, output).(output := output)
  }

  /** A result that arms a write-back. */
  method Arm(r: CheckRunner, h: string, output: string, now: int)
    requires r.Valid() && WellNamedState(r.checks.view, r.QueueNow()) && h in r.checks.entries && h !in r.deferCheck
    requires var l := r.checks.entries[h].local; Defers(r.settings, l, l.status, output)
    modifies r`checksCritical, r`deferCheck, r.client, r.checks.repr, r.batcher
    ensures r.Valid() && WellNamedState(r.checks.view, r.QueueNow()) && r.checks.Objects() == old(r.checks.Objects())
    ensures r.Now().server == old(r.Now()).server
    ensures r.checks.entries[h].local == PutOff(r.settings.thresholds, old(r.checks.entries[h].local), output)
    ensures r.deferCheck
            == old(r.deferCheck)[h := DeferredSync(r.checks.entries[h], old(r.checks.entries[h].local.status), output)]
  {
    ghost var s, status := r.State(), r.checks.entries[h].local.status;
    ghost var batch, orders;
    var blocked;
    blocked, batch, orders := r.UpdateCheck(h, r.checks.entries[h].local.status, output, now);
    ResultsKeepNames(r.settings, h, status, output, now, s, r.State(), blocked, batch, orders);
    assert r.checks.view[h] == r.checks.entries[h].State();
  }

  /** The state of a tracked check is what its object holds. */
  lemma StateOf(r: CheckRunner, h: string)
    requires r.Valid() && WellNamedState(r.checks.view, r.QueueNow()) && h in r.checks.entries
    ensures h in r.checks.view && LocalOf(r.checks.view[h]) == r.checks.entries[h].local
    ensures var l := r.checks.entries[h].local;
      r.checks.view[h].hc == WithResult(r.checks.entries[h].listed, l.status, l.output)
    ensures WellNamedCheck(r.checks.entries[h].listed)
  {
    assert r.checks.view[h] == r.checks.entries[h].State();
  }

  /** A result that changes the status. */
  method Change(r: CheckRunner, h: string, status: string, output: string, now: int)
    requires r.Valid() && r.batcher != null && r.client.script == [] && WellNamedState(r.checks.view, r.QueueNow())
    requires h in r.checks.entries && KeyOf(r.checks.entries[h].listed) in r.client.world.entries
    requires var l := r.checks.entries[h].local;
      Judge(r.settings.thresholds, l, status, output) == Accepted && status != l.status
    modifies r`checksCritical, r`deferCheck, r.client, r.checks.repr, r.batcher
    ensures r.Valid() && r.client.script == [] && WellNamedState(r.checks.view, r.QueueNow())
    ensures r.checks.Objects() == old(r.checks.Objects()) && r.deferCheck == old(r.deferCheck)
    ensures (r.checks.entries[h].local.status, r.checks.entries[h].local.output) == (status, output)
    ensures KeyOf(r.checks.entries[h].listed) in r.client.world.entries
  {
    ghost var s := r.State();
    ghost var batch, orders;
    var blocked;
    StateOf(r, h);
    blocked, batch, orders := r.UpdateCheck(h, status, output, now);
    ResultSays(r.settings, h, status, output, now, s, r.State(), blocked, batch, orders, r.checks.entries[h].listed);
    assert r.checks.view[h] == r.checks.entries[h].State();
  }

  /** A flush in between, or none. */
  method MaybeFlush(r: CheckRunner, h: string, flushed: bool)
    requires r.Valid() && r.client.script == [] && WellNamedState(r.checks.view, r.QueueNow())
    requires h in r.checks.entries && KeyOf(r.checks.entries[h].listed) in r.client.world.entries
    modifies r.client, r.checks.repr, r.batcher
    ensures r.Valid() && r.client.script == [] && WellNamedState(r.checks.view, r.QueueNow())
    ensures r.checks.Objects() == old(r.checks.Objects()) && r.checks.view == old(r.checks.view)
    ensures KeyOf(r.checks.entries[h].listed) in r.client.world.entries
  {
    if flushed {
      ghost var x, q, c := r.Now(), r.QueueNow(), r.checks.entries[h].listed;
      ghost var batch, orders := FlushIfBatching(r);
      assert x.locals[h].hc == WithResult(c, x.locals[h].hc.status, x.locals[h].hc.output);
      FlushSays(x, q, r.Now(), batch, orders, c);
    }
  }

  /** Nothing calls the write-back off: a new output is put off, then the status changes, the change may be flushed or
      not, and then the timer goes off and the batcher is flushed. The catalog is left with the old status, the local
      state has the new one, and the same result is no news any more. */
  method LateWriteBack(r: CheckRunner, h: string, output1: string, now1: int,
                       status: string, output: string, now2: int, flushed: bool)
    requires r.Valid() && r.batcher != null && r.client.script == [] && WellNamedState(r.checks.view, r.QueueNow())
    requires h in r.checks.entries && h !in r.deferCheck && KeyOf(r.checks.entries[h].listed) in r.client.world.entries
    requires var l := r.checks.entries[h].local;
      && Defers(r.settings, l, l.status, output1) && status != l.status
      && Judge(r.settings.thresholds, PutOff(r.settings.thresholds, l, output1), status, output) == Accepted
    modifies r`checksCritical, r`deferCheck, r.client, r.checks.repr, r.batcher
    ensures r.Valid() && h in r.checks.entries && h !in r.deferCheck
    ensures var k := KeyOf(r.checks.entries[h].listed); var l := r.checks.entries[h].local;
      && k in r.client.world.entries
      && r.client.world.entries[k].val.check.status == old(r.checks.entries[h].local.status)
      && l.status == status != old(r.checks.entries[h].local.status)
      && Judge(r.settings.thresholds, l, status, output) == Idempotent
  {
    Arm(r, h, output1, now1);
    Change(r, h, status, output, now2);
    StateOf(r, h);
    MaybeFlush(r, h, flushed);
    FireAndFlush(r, h);
    assert r.checks.view[h] == r.checks.entries[h].State();
  }
}
