/** check.go: what becomes of a batch of updates, as functions of the server (and what the outside will do to it) and of
    the tracked checks: fetches, reverts, transactions, retries. */
module Batches {
  import opened Options
  import opened Definitions
  import opened Store
  import opened Batcher
  import Resync

  // ---------------------------------------------------------------- reverts

  /** The tracked checks with their local states. */
  type Locals = map<string, Resync.Tracked>

  /** An update with a known old state; a deferred one carries none and is left alone. */
  predicate NeedsRevert(u: Update) {
    u.oldStatus != "" || u.oldOutput != ""
  }

  predicate HasOldState(t: Resync.Tracked, u: Update) {
    t.hc.status == u.oldStatus && t.hc.output == u.oldOutput
  }

  /** The check with the update's old status and output; the counters stay. */
  function BroughtBack(t: Resync.Tracked, u: Update): Resync.Tracked {
    t.(hc := t.hc.(status := u.oldStatus, output := u.oldOutput))
  }

  /** revertCheckState. */
  function Revert(v: Locals, u: Update): Locals {
    if u.hash !in v then v else v[u.hash := BroughtBack(v[u.hash], u)]
  }

  /** revertAllUpdates. */
  function RevertAll(v: Locals, us: seq<Update>): Locals {
    if us == [] then v
    else
      var u := us[|us| - 1];
      var rest := RevertAll(v, us[..|us| - 1]);
      if NeedsRevert(u) then Revert(rest, u) else rest
  }

  /** Reverting these updates touches the check of hash h, so its lock is needed. */
  ghost predicate NeedsLock(v: Locals, us: seq<Update>, h: string) {
    h in v && exists u | u in us :: NeedsRevert(u) && u.hash == h
  }

  ghost predicate SeparateHashes(us: seq<Update>) {
    forall i, j | 0 <= i < j < |us| :: us[i].hash != us[j].hash
  }

  /** The update's check has its old state back, or is not tracked, or the update has no old state. */
  predicate IsReverted(v: Locals, u: Update) {
    (u.oldStatus != "" || u.oldOutput != "") && u.hash in v ==>
      v[u.hash].hc.status == u.oldStatus && v[u.hash].hc.output == u.oldOutput
  }

  /** The same checks with the same counters, but for status and output. */
  ghost predicate SameButState(v: Locals, v': Locals) {
    && v'.Keys == v.Keys
    && forall h | h in v ::
         v'[h] == v[h].(hc := v[h].hc.(status := v'[h].hc.status, output := v'[h].hc.output))
  }

  /** The only changes are status and output of checks of these updates, back to an old state. */
  ghost predicate OnlyReverts(v: Locals, v': Locals, us: seq<Update>) {
    && SameButState(v, v')
    && (forall h | h in v && v'[h] != v[h] :: exists u | u in us :: u.hash == h && HasOldState(v'[h], u))
  }

  lemma RevertOnlyReverts(v: Locals, v': Locals, us: seq<Update>, u: Update, all: seq<Update>)
    requires OnlyReverts(v, v', us) && u in all && forall w | w in us :: w in all
    ensures OnlyReverts(v, Revert(v', u), all)
  {
    var v'' := Revert(v', u);
    forall h | h in v && v''[h] != v[h] ensures exists w | w in all :: w.hash == h && HasOldState(v''[h], w) {
      if h == u.hash {
        assert HasOldState(v''[h], u);
      } else {
        assert v'[h] != v[h];
      }
    }
  }

  lemma OneMoreRevert(v: Locals, front: seq<Update>, last: Update)
    requires forall u | u in front :: IsReverted(v, u) && u.hash != last.hash
    ensures forall u | u in front + [last] :: IsReverted(if NeedsRevert(last) then Revert(v, last) else v, u)
  {
  }

  lemma {:induction false} AllGetReverted(v: Locals, us: seq<Update>)
    requires SeparateHashes(us)
    ensures forall u | u in us :: IsReverted(RevertAll(v, us), u)
  {
    if us != [] {
      var front, last := us[..|us| - 1], us[|us| - 1];
      assert us == front + [last];
      AllGetReverted(v, front);
      forall u | u in front ensures u.hash != last.hash {
        var i :| 0 <= i < |front| && front[i] == u;
        assert us[i] == u;
      }
      OneMoreRevert(RevertAll(v, front), front, last);
    }
  }

  lemma {:induction false} NothingElseIsReverted(v: Locals, us: seq<Update>)
    ensures OnlyReverts(v, RevertAll(v, us), us)
  {
    if us != [] {
      var front, last := us[..|us| - 1], us[|us| - 1];
      assert us == front + [last];
      NothingElseIsReverted(v, front);
      RevertOnlyReverts(v, RevertAll(v, front), front, last, us);
    }
  }

  lemma RevertAllReverts(v: Locals, us: seq<Update>)
    ensures OnlyReverts(v, RevertAll(v, us), us)
    ensures SeparateHashes(us) ==> forall u | u in us :: IsReverted(RevertAll(v, us), u)
  {
    NothingElseIsReverted(v, us);
    if SeparateHashes(us) {
      AllGetReverted(v, us);
    }
  }

  lemma OnlyRevertsCompose(v: Locals, w: Locals, x: Locals, us: seq<Update>, vs: seq<Update>, all: seq<Update>)
    requires OnlyReverts(v, w, us) && OnlyReverts(w, x, vs)
    requires (forall u | u in us :: u in all) && (forall u | u in vs :: u in all)
    ensures OnlyReverts(v, x, all)
  {
    forall h | h in v && x[h] != v[h] ensures exists u | u in all :: u.hash == h && HasOldState(x[h], u) {
      if x[h] == w[h] {
        assert w[h] != v[h];
      }
    }
  }

  // ---------------------------------------------------------------- operations

  function Target(u: Update): Key {
    CheckKey(u.node, u.lookupID)
  }

  function Edited(v: Val, u: Update): Val
    requires v.CheckVal?
  {
    CheckVal(v.check.(status := u.status, output := u.output))
  }

  /** The operation for an update, made from the entry that was read. */
  function OpFor(u: Update, e: Entry): Op
    requires e.val.CheckVal?
  {
    Cas(Target(u), e.index, Edited(e.val, u))
  }

  /** What the fetches of a batch brought: per node, the checks found. */
  type Fetched = map<string, Entries>

  ghost predicate WasRead(trace: seq<Event>, fetched: Fetched) {
    forall node, k | node in fetched && k in fetched[node] :: exists j :: Found(trace, j, k, fetched[node][k])
  }

  lemma WasReadLasts(trace: seq<Event>, longer: seq<Event>, fetched: Fetched)
    requires trace <= longer && WasRead(trace, fetched)
    ensures WasRead(longer, fetched)
  {
    forall node, k | node in fetched && k in fetched[node] ensures exists j :: Found(longer, j, k, fetched[node][k]) {
      var j :| Found(trace, j, k, fetched[node][k]);
      assert Found(longer, j, k, fetched[node][k]);
    }
  }

  /** The update's check was found. */
  predicate Exists(u: Update, fetched: Fetched) {
    u.node in fetched && Target(u) in fetched[u.node]
  }

  predicate AllExist(us: seq<Update>, fetched: Fetched) {
    forall i | 0 <= i < |us| :: Exists(us[i], fetched)
  }

  /** Operation i is the compare-and-set of update i. */
  function OpsFor(us: seq<Update>, fetched: Fetched): (ops: seq<Op>)
    requires AllExist(us, fetched)
  {
    seq(|us|, i requires 0 <= i < |us| => OpFor(us[i], fetched[us[i].node][Target(us[i])]))
  }

  lemma OpIsFromRead(trace: seq<Event>, u: Update, e: Entry, j: int)
    requires Found(trace, j, Target(u), e) && e.val.CheckVal?
    ensures FromRead(trace, OpFor(u, e))
  {
    assert OnlyStatusAndOutput(e.val, OpFor(u, e).val);
  }

  lemma OpsAreFromReads(trace: seq<Event>, us: seq<Update>, fetched: Fetched)
    requires WasRead(trace, fetched) && AllExist(us, fetched)
    ensures forall op | op in OpsFor(us, fetched) :: op.Cas? && op.key.CheckKey? && FromRead(trace, op)
  {
    var ops := OpsFor(us, fetched);
    forall op | op in ops ensures op.Cas? && op.key.CheckKey? && FromRead(trace, op) {
      var i :| 0 <= i < |ops| && ops[i] == op;
      var e := fetched[us[i].node][Target(us[i])];
      var j :| Found(trace, j, Target(us[i]), e);
      OpIsFromRead(trace, us[i], e, j);
    }
  }

  ghost predicate SeparateTargets(us: seq<Update>) {
    forall i, j | 0 <= i < j < |us| :: Target(us[i]) != Target(us[j])
  }

  // ---------------------------------------------------------------- one update at a time

  /** What became of a write of one check: not read, not there, or sent. */
  datatype Push = Unreadable | Gone | Sent(reply: Reply)

  /** Read, edit, compare-and-set: the immediate path, and each retry. */
  function PushOne(s: Server, u: Update): (Server, Push) {
    var (s1, found) := Ask(s, ChecksOf(u.node));
    if found == None then (s1, Unreadable)
    else if Target(u) !in found.value then (s1, Gone)
    else
      var (s2, reply) := Submit(s1, [OpFor(u, found.value[Target(u)])], 0);
      (s2, Sent(reply))
  }

  predicate Took(p: Push) {
    p.Sent? && p.reply.Reply? && p.reply.errors == [] && p.reply.ok
  }

  predicate Rejected(p: Push) {
    p.Sent? && p.reply.Reply? && p.reply.errors != []
  }

  /** The server and the local states. */
  datatype Side = Side(server: Server, locals: Locals)

  /** One retry: only an answer with errors is reverted, and then whatever the update. */
  function RetryOne(x: Side, u: Update): Side {
    var (s, p) := PushOne(x.server, u);
    Side(s, if Rejected(p) then Revert(x.locals, u) else x.locals)
  }

  /** Retries of the updates at the given positions, one after another; positions out of range are passed over. */
  function RetryAll(x: Side, us: seq<Update>, order: seq<nat>): Side {
    if order == [] then x
    else
      var i := order[|order| - 1];
      var y := RetryAll(x, us, order[..|order| - 1]);
      if i < |us| then RetryOne(y, us[i]) else y
  }

  /** Some of these retries reverts the check of hash h. */
  ghost predicate RetryNeedsLock(x: Side, us: seq<Update>, order: seq<nat>, h: string) {
    && order != []
    && var front, i := order[..|order| - 1], order[|order| - 1];
       || RetryNeedsLock(x, us, front, h)
       || (i < |us| && us[i].hash == h && h in x.locals && Rejected(PushOne(RetryAll(x, us, front).server, us[i]).1))
  }

  lemma OneMoreRetry(x: Side, us: seq<Update>, order: seq<nat>, i: nat)
    ensures var y := RetryAll(x, us, order);
      && RetryAll(x, us, order + [i]) == (if i < |us| then RetryOne(y, us[i]) else y)
      && forall h :: RetryNeedsLock(x, us, order + [i], h)
           <==> || RetryNeedsLock(x, us, order, h)
                || (i < |us| && us[i].hash == h && h in x.locals && Rejected(PushOne(y.server, us[i]).1))
  {
    assert (order + [i])[..|order|] == order;
  }

  lemma {:induction false} RetryOnlyReverts(x: Side, us: seq<Update>, order: seq<nat>)
    ensures OnlyReverts(x.locals, RetryAll(x, us, order).locals, us)
  {
    if order != [] {
      var front, i := order[..|order| - 1], order[|order| - 1];
      RetryOnlyReverts(x, us, front);
      if i < |us| {
        RevertOnlyReverts(x.locals, RetryAll(x, us, front).locals, us, us[i], us);
      }
    }
  }

  /** A push only edits its check. */
  lemma PushEdits(s: Server, u: Update)
    requires Good(s.world)
    ensures OnlyEdits(s.world, PushOne(s, u).0.world)
  {
    AskEdits(s, ChecksOf(u.node));
    FetchStaysGood(s.world, NextTurn(s.script), ChecksOf(u.node));
    var (s1, found) := Ask(s, ChecksOf(u.node));
    if found.Some? && Target(u) in found.value {
      var e := found.value[Target(u)];
      OpIsFromRead(s1.world.trace, u, e, |s1.world.trace| - 1);
      SubmitEdits(s1, [OpFor(u, e)], 0);
      EditsCompose(s.world, s1.world, PushOne(s, u).0.world);
    }
  }

  // ---------------------------------------------------------------- one transaction

  predicate AnyStale(errors: seq<TxnError>) {
    exists e | e in errors :: e.stale
  }

  /** The positions named by stale-index errors. */
  function StaleIndices(errors: seq<TxnError>): set<nat> {
    set e | e in errors && e.stale :: e.opIndex
  }

  ghost predicate NoRepeats(order: seq<nat>) {
    forall a, b | 0 <= a < b < |order| :: order[a] != order[b]
  }

  /** The sequence takes each position of the set once. */
  ghost predicate IsOrder(order: seq<nat>, positions: set<nat>) {
    (forall i :: i in order <==> i in positions) && NoRepeats(order)
  }

  lemma OrderGrows(order: seq<nat>, i: nat, positions: set<nat>)
    requires IsOrder(order, positions) && i !in positions
    ensures IsOrder(order + [i], positions + {i})
  {
  }

  /** The transaction failed in a way that makes the runner revert all of it. */
  predicate FailsWhole(reply: Reply) {
    reply.TransportError? || (if reply.errors != [] then !AnyStale(reply.errors) else !reply.ok)
  }

  /** ... or in a way that makes it retry what the errors name, and only that. */
  predicate FailsStale(reply: Reply) {
    reply.Reply? && AnyStale(reply.errors)
  }

  /** The transaction is not known to have succeeded, and nothing in the answer, if there is one, is a stale index. */
  predicate FailedPlainly(reply: Reply) {
    reply != Reply(true, []) && (reply.Reply? ==> forall e | e in reply.errors :: !e.stale)
  }

  /** executeBatchTransaction. `order` is the order in which the stale positions are taken. */
  function Execute(x: Side, us: seq<Update>, fetched: Fetched, order: seq<nat>): (Side, Reply)
    requires AllExist(us, fetched)
  {
    var (s, reply) := Submit(x.server, OpsFor(us, fetched), 0);
    var y := Side(s, x.locals);
    if FailsWhole(reply) then (y.(locals := RevertAll(x.locals, us)), reply)
    else if FailsStale(reply) then (RetryAll(y, us, order), reply)
    else (y, reply)
  }

  ghost predicate ExecuteNeedsLock(x: Side, us: seq<Update>, fetched: Fetched, order: seq<nat>, h: string)
    requires AllExist(us, fetched)
  {
    var (s, reply) := Submit(x.server, OpsFor(us, fetched), 0);
    || (FailsWhole(reply) && NeedsLock(x.locals, us, h))
    || (FailsStale(reply) && RetryNeedsLock(Side(s, x.locals), us, order, h))
  }

  lemma ExecuteOnlyReverts(x: Side, us: seq<Update>, fetched: Fetched, order: seq<nat>)
    requires AllExist(us, fetched)
    ensures OnlyReverts(x.locals, Execute(x, us, fetched, order).0.locals, us)
  {
    var (s, reply) := Submit(x.server, OpsFor(us, fetched), 0);
    RevertAllReverts(x.locals, us);
    RetryOnlyReverts(Side(s, x.locals), us, order);
  }

  /** After a transaction that failed plainly every check of it has its old state back; after one that is known to have
      succeeded nothing has changed locally. */
  lemma FailedIsReverted(x: Side, us: seq<Update>, fetched: Fetched, order: seq<nat>)
    requires AllExist(us, fetched)
    ensures var (y, reply) := Execute(x, us, fetched, order);
      && (FailedPlainly(reply) && SeparateHashes(us) ==> forall u | u in us :: IsReverted(y.locals, u))
      && (reply == Reply(true, []) ==> y.locals == x.locals)
  {
    RevertAllReverts(x.locals, us);
  }

  // ---------------------------------------------------------------- the whole batch

  /** The state of the fetch phase: a node is asked for until an answer comes, at most once for each update. */
  datatype Gathered = Gathered(server: Server, fetched: Fetched, failed: set<string>)

  function Gather(s: Server, us: seq<Update>): Gathered {
    if us == [] then Gathered(s, map[], {})
    else
      var node := us[|us| - 1].node;
      var g := Gather(s, us[..|us| - 1]);
      if node in g.fetched then g
      else
        var (s1, found) := Ask(g.server, ChecksOf(node));
        if found == None then g.(server := s1, failed := g.failed + {node})
        else g.(server := s1, fetched := g.fetched[node := found.value])
  }

  lemma {:induction false} GatherEdits(s: Server, us: seq<Update>)
    requires Good(s.world)
    ensures OnlyEdits(s.world, Gather(s, us).server.world) && Good(Gather(s, us).server.world)
  {
    if us != [] {
      var g := Gather(s, us[..|us| - 1]);
      GatherEdits(s, us[..|us| - 1]);
      AskEdits(g.server, ChecksOf(us[|us| - 1].node));
      EditsCompose(s.world, g.server.world, Ask(g.server, ChecksOf(us[|us| - 1].node)).0.world);
    }
  }

  /** The updates of nodes for which a fetch failed. */
  function Failing(us: seq<Update>, failed: set<string>): seq<Update> {
    if us == [] then []
    else
      var u := us[|us| - 1];
      Failing(us[..|us| - 1], failed) + if u.node in failed then [u] else []
  }

  lemma FailingGrows(v: Locals, us: seq<Update>, failed: set<string>)
    requires us != []
    ensures var front, u := us[..|us| - 1], us[|us| - 1];
      && RevertAll(v, Failing(us, failed))
         == (if u.node in failed && NeedsRevert(u) then Revert(RevertAll(v, Failing(front, failed)), u)
             else RevertAll(v, Failing(front, failed)))
      && forall h :: NeedsLock(v, Failing(us, failed), h)
           <==> NeedsLock(v, Failing(front, failed), h) || (u.node in failed && NeedsRevert(u) && u.hash == h && h in v)
  {
    var front, u := us[..|us| - 1], us[|us| - 1];
    if u.node in failed {
      assert Failing(us, failed) == Failing(front, failed) + [u];
      assert (Failing(front, failed) + [u])[..|Failing(front, failed)|] == Failing(front, failed);
    } else {
      assert Failing(us, failed) == Failing(front, failed);
    }
  }

  /** The updates that go into a transaction, in order. */
  function Kept(us: seq<Update>, fetched: Fetched): seq<Update> {
    if us == [] then []
    else
      var u := us[|us| - 1];
      Kept(us[..|us| - 1], fetched) + if Exists(u, fetched) then [u] else []
  }

  /** Cut into transactions: each is full before the next one begins. */
  function Chunks(us: seq<Update>): seq<seq<Update>> {
    if us == [] then [] else PutLast(Chunks(us[..|us| - 1]), us[|us| - 1])
  }

  function PutLast(chunks: seq<seq<Update>>, u: Update): seq<seq<Update>> {
    var n := |chunks|;
    if n == 0 || |chunks[n - 1]| >= MAX_TXN_OPS then chunks + [[u]] else chunks[..n - 1] + [chunks[n - 1] + [u]]
  }

  predicate AllFull(chunks: seq<seq<Update>>) {
    forall i | 0 <= i < |chunks| :: |chunks[i]| == MAX_TXN_OPS
  }

  predicate AllChunksExist(chunks: seq<seq<Update>>, fetched: Fetched) {
    forall i | 0 <= i < |chunks| :: AllExist(chunks[i], fetched)
  }

  function NthOrder(orders: seq<seq<nat>>, i: nat): seq<nat> {
    if i < |orders| then orders[i] else []
  }

  /** The transactions one after another, with the replies to them. */
  function SendAll(x: Side, chunks: seq<seq<Update>>, fetched: Fetched, orders: seq<seq<nat>>): (Side, seq<Reply>)
    requires AllChunksExist(chunks, fetched)
  {
    if chunks == [] then (x, [])
    else
      var n := |chunks| - 1;
      var (y, replies) := SendAll(x, chunks[..n], fetched, orders);
      var (z, reply) := Execute(y, chunks[n], fetched, NthOrder(orders, n));
      (z, replies + [reply])
  }

  ghost predicate SendNeedsLock(x: Side, chunks: seq<seq<Update>>, fetched: Fetched, orders: seq<seq<nat>>, h: string)
    requires AllChunksExist(chunks, fetched)
  {
    && chunks != []
    && var n := |chunks| - 1;
       || SendNeedsLock(x, chunks[..n], fetched, orders, h)
       || ExecuteNeedsLock(SendAll(x, chunks[..n], fetched, orders).0, chunks[n], fetched, NthOrder(orders, n), h)
  }

  lemma {:induction false} EarlierOrders(
      x: Side, chunks: seq<seq<Update>>, fetched: Fetched, orders: seq<seq<nat>>, more: seq<seq<nat>>)
    requires AllChunksExist(chunks, fetched) && |chunks| <= |orders|
    ensures SendAll(x, chunks, fetched, orders + more) == SendAll(x, chunks, fetched, orders)
    ensures forall h ::
      SendNeedsLock(x, chunks, fetched, orders + more, h) <==> SendNeedsLock(x, chunks, fetched, orders, h)
  {
    if chunks != [] {
      EarlierOrders(x, chunks[..|chunks| - 1], fetched, orders, more);
    }
  }

  /** One more transaction. */
  lemma SendSnoc(x: Side, sent: seq<seq<Update>>, us: seq<Update>, fetched: Fetched,
                 orders: seq<seq<nat>>, order: seq<nat>)
    requires AllChunksExist(sent, fetched) && AllExist(us, fetched) && |orders| == |sent|
    ensures AllChunksExist(sent + [us], fetched)
    ensures var (y, replies) := SendAll(x, sent, fetched, orders);
            var (z, reply) := Execute(y, us, fetched, order);
      && SendAll(x, sent + [us], fetched, orders + [order]) == (z, replies + [reply])
      && forall h :: SendNeedsLock(x, sent + [us], fetched, orders + [order], h)
           <==> SendNeedsLock(x, sent, fetched, orders, h) || ExecuteNeedsLock(y, us, fetched, order, h)
  {
    EarlierOrders(x, sent, fetched, orders, [order]);
    assert (sent + [us])[..|sent|] == sent;
  }

  lemma {:induction false} EarlierNeedsLock(
      x: Side, sent: seq<seq<Update>>, chunks: seq<seq<Update>>, fetched: Fetched, orders: seq<seq<nat>>, h: string)
    requires AllChunksExist(chunks, fetched) && AllChunksExist(sent, fetched) && sent <= chunks
    requires SendNeedsLock(x, sent, fetched, orders, h)
    ensures SendNeedsLock(x, chunks, fetched, orders, h)
  {
    if |sent| < |chunks| {
      EarlierNeedsLock(x, sent, chunks[..|chunks| - 1], fetched, orders, h);
    } else {
      assert sent == chunks;
    }
  }

  /** The first updates are in full transactions already sent, and a shorter one in the making. */
  ghost predicate Filling(us: seq<Update>, fetched: Fetched, sent: seq<seq<Update>>, made: seq<Update>) {
    && AllExist(made, fetched) && |made| < MAX_TXN_OPS
    && AllChunksExist(sent, fetched) && AllFull(sent)
    && Chunks(Kept(us, fetched)) == sent + if made == [] then [] else [made]
  }

  lemma KeptSnoc(us: seq<Update>, u: Update, fetched: Fetched)
    ensures Kept(us + [u], fetched) == if Exists(u, fetched) then Kept(us, fetched) + [u] else Kept(us, fetched)
  {
    assert (us + [u])[..|us|] == us;
  }

  lemma ChunksSnoc(us: seq<Update>, u: Update)
    ensures Chunks(us + [u]) == PutLast(Chunks(us), u)
  {
    assert (us + [u])[..|us|] == us;
  }

  /** The next update completes a transaction, or goes into the one in the making. */
  lemma PutMore(sent: seq<seq<Update>>, made: seq<Update>, u: Update)
    requires AllFull(sent) && |made| < MAX_TXN_OPS
    ensures PutLast(sent + if made == [] then [] else [made], u) == sent + [made + [u]]
  {
    if made == [] {
      assert sent + [] == sent && made + [u] == [u];
    } else {
      assert (sent + [made])[..|sent|] == sent;
    }
  }

  lemma FillMore(all: seq<Update>, i: nat, fetched: Fetched, sent: seq<seq<Update>>, made: seq<Update>)
    requires i < |all| && Filling(all[..i], fetched, sent, made)
    ensures var u := all[i];
      if !Exists(u, fetched) then Filling(all[..i + 1], fetched, sent, made)
      else
        && AllExist(made + [u], fetched)
        && OpsFor(made + [u], fetched) == OpsFor(made, fetched) + [OpFor(u, fetched[u.node][Target(u)])]
        && if |made| + 1 < MAX_TXN_OPS then Filling(all[..i + 1], fetched, sent, made + [u])
           else Filling(all[..i + 1], fetched, sent + [made + [u]], [])
  {
    assert all[..i + 1] == all[..i] + [all[i]];
    KeptSnoc(all[..i], all[i], fetched);
    if Exists(all[i], fetched) {
      OpsSnoc(made, all[i], fetched);
      MoreChunks(Kept(all[..i], fetched), sent, made, all[i]);
    }
  }

  lemma OpsSnoc(made: seq<Update>, u: Update, fetched: Fetched)
    requires AllExist(made, fetched) && Exists(u, fetched)
    ensures AllExist(made + [u], fetched)
    ensures OpsFor(made + [u], fetched) == OpsFor(made, fetched) + [OpFor(u, fetched[u.node][Target(u)])]
  {
  }

  lemma MoreChunks(kept: seq<Update>, sent: seq<seq<Update>>, made: seq<Update>, u: Update)
    requires AllFull(sent) && |made| < MAX_TXN_OPS && Chunks(kept) == sent + if made == [] then [] else [made]
    ensures Chunks(kept + [u]) == sent + [made + [u]]
    ensures Chunks(kept + [u]) == (sent + [made + [u]]) + []
  {
    ChunksSnoc(kept, u);
    PutMore(sent, made, u);
  }

  lemma FullOnesStay(sent: seq<seq<Update>>, chunks: seq<seq<Update>>, u: Update)
    requires AllFull(sent) && sent <= chunks
    ensures sent <= PutLast(chunks, u)
  {
  }

  /** Full transactions are what they are, whatever comes after. */
  lemma {:induction false} FullChunksStay(us: seq<Update>, fetched: Fetched, i: nat, sent: seq<seq<Update>>)
    requires i <= |us| && AllFull(sent) && sent <= Chunks(Kept(us[..i], fetched))
    ensures sent <= Chunks(Kept(us, fetched))
  {
    if i == |us| {
      assert us[..i] == us;
    } else {
      FullChunksStay(us[..|us| - 1], fetched, i, sent) by {
        assert us[..|us| - 1][..i] == us[..i];
      }
      var front, u := us[..|us| - 1], us[|us| - 1];
      assert us == front + [u];
      KeptSnoc(front, u, fetched);
      ChunksSnoc(Kept(front, fetched), u);
      FullOnesStay(sent, Chunks(Kept(front, fetched)), u);
    }
  }

  lemma StopsEarly(x: Side, us: seq<Update>, fetched: Fetched, i: nat, sent: seq<seq<Update>>,
                   orders: seq<seq<nat>>, h: string)
    requires i <= |us| && Filling(us[..i], fetched, sent, [])
    requires SendNeedsLock(x, sent, fetched, orders, h)
    ensures AllChunksExist(Chunks(Kept(us, fetched)), fetched)
    ensures SendNeedsLock(x, Chunks(Kept(us, fetched)), fetched, orders, h)
  {
    assert Chunks(Kept(us[..i], fetched)) == sent;
    FullChunksStay(us, fetched, i, sent);
    KeptChunksExist(us, fetched);
    EarlierNeedsLock(x, sent, Chunks(Kept(us, fetched)), fetched, orders, h);
  }

  lemma {:induction false} KeptMembers(us: seq<Update>, fetched: Fetched)
    ensures forall u :: u in Kept(us, fetched) <==> u in us && Exists(u, fetched)
  {
    if us != [] {
      KeptMembers(us[..|us| - 1], fetched);
      assert us == us[..|us| - 1] + [us[|us| - 1]];
    }
  }

  lemma {:induction false} KeptSeparate(us: seq<Update>, fetched: Fetched)
    ensures SeparateHashes(us) ==> SeparateHashes(Kept(us, fetched))
    ensures SeparateTargets(us) ==> SeparateTargets(Kept(us, fetched))
  {
    if us != [] {
      var front := us[..|us| - 1];
      KeptSeparate(front, fetched);
      KeptMembers(front, fetched);
      var rest := Kept(front, fetched);
      forall i | 0 <= i < |rest| ensures exists j :: 0 <= j < |front| && us[j] == rest[i] {
        assert rest[i] in front;
      }
    }
  }

  lemma KeptMeans(us: seq<Update>, fetched: Fetched)
    ensures forall u :: u in Kept(us, fetched) <==> u in us && Exists(u, fetched)
    ensures SeparateHashes(us) ==> SeparateHashes(Kept(us, fetched))
    ensures SeparateTargets(us) ==> SeparateTargets(Kept(us, fetched))
  {
    KeptMembers(us, fetched);
    KeptSeparate(us, fetched);
  }

  lemma {:induction false} FailingMeans(us: seq<Update>, failed: set<string>)
    ensures forall u :: u in Failing(us, failed) <==> u in us && u.node in failed
    ensures failed == {} ==> Failing(us, failed) == []
  {
    if us != [] {
      var front, last := us[..|us| - 1], us[|us| - 1];
      assert us == front + [last];
      FailingMeans(front, failed);
    }
  }

  /** The chunks are the updates, in order, in full transactions and at most one shorter last one. */
  ghost predicate CutsInto(us: seq<Update>, chunks: seq<seq<Update>>) {
    && Flatten(chunks) == us
    && (forall i | 0 <= i < |chunks| - 1 :: |chunks[i]| == 64)
    && (chunks != [] ==> 0 < |chunks[|chunks| - 1]| <= 64)
  }

  lemma PutLastCuts(us: seq<Update>, chunks: seq<seq<Update>>, u: Update)
    requires CutsInto(us, chunks)
    ensures CutsInto(us + [u], PutLast(chunks, u))
  {
    var n := |chunks|;
    if n == 0 || |chunks[n - 1]| >= MAX_TXN_OPS {
      FlattenSnoc(chunks, [u]);
    } else {
      var front, last := chunks[..n - 1], chunks[n - 1];
      assert chunks == front + [last];
      FlattenSnoc(front, last);
      FlattenSnoc(front, last + [u]);
      assert Flatten(front) + (last + [u]) == us + [u];
    }
  }

  lemma ChunksGrow(front: seq<Update>, u: Update)
    requires CutsInto(front, Chunks(front))
    ensures CutsInto(front + [u], Chunks(front + [u]))
  {
    assert (front + [u])[..|front|] == front;
    PutLastCuts(front, Chunks(front), u);
  }

  lemma {:induction false} ChunksCut(us: seq<Update>)
    ensures CutsInto(us, Chunks(us))
  {
    if us != [] {
      ChunksCut(us[..|us| - 1]);
      ChunksGrow(us[..|us| - 1], us[|us| - 1]);
      assert us == us[..|us| - 1] + [us[|us| - 1]];
    }
  }

  lemma {:induction false} FlattenMember(chunks: seq<seq<Update>>, i: nat, u: Update)
    requires i < |chunks| && u in chunks[i]
    ensures u in Flatten(chunks)
  {
    if i < |chunks| - 1 {
      FlattenMember(chunks[..|chunks| - 1], i, u);
    }
  }

  lemma KeptChunksExist(us: seq<Update>, fetched: Fetched)
    ensures AllChunksExist(Chunks(Kept(us, fetched)), fetched)
  {
    var kept := Kept(us, fetched);
    KeptMeans(us, fetched);
    ChunksCut(kept);
    var chunks := Chunks(kept);
    forall i, k | 0 <= i < |chunks| && 0 <= k < |chunks[i]| ensures Exists(chunks[i][k], fetched) {
      FlattenMember(chunks, i, chunks[i][k]);
    }
  }

  /** processBatchedUpdates, when no lock is in the way. */
  function Process(x: Side, us: seq<Update>, orders: seq<seq<nat>>): (Side, seq<Reply>) {
    var g := Gather(x.server, us);
    KeptChunksExist(us, g.fetched);
    var y := Side(g.server, RevertAll(x.locals, Failing(us, g.failed)));
    SendAll(y, Chunks(Kept(us, g.fetched)), g.fetched, orders)
  }

  /** Somewhere in it the check of hash h is reverted. */
  ghost predicate ProcessNeedsLock(x: Side, us: seq<Update>, orders: seq<seq<nat>>, h: string) {
    var g := Gather(x.server, us);
    KeptChunksExist(us, g.fetched);
    var failing := Failing(us, g.failed);
    || NeedsLock(x.locals, failing, h)
    || SendNeedsLock(Side(g.server, RevertAll(x.locals, failing)), Chunks(Kept(us, g.fetched)), g.fetched, orders, h)
  }

  // ---------------------------------------------------------------- one result

  /** What takes updates: the catalog at once, or the batcher with what is pending there. */
  datatype Queue = Immediate | Queued(pending: map<string, Update>)

  /** The local state follows an accepted update. */
  function Follow(v: Locals, u: Update): Locals {
    if u.hash !in v then v else v[u.hash := v[u.hash].(hc := v[u.hash].hc.(status := u.status, output := u.output))]
  }

  /** handleCheckUpdateImmediate; `current` says whether the check object it was called with is still the tracked one.
      */
  function PushAndFollow(x: Side, u: Update, current: bool): Side {
    var (s, p) := PushOne(x.server, u);
    Side(s, if Took(p) && current then Follow(x.locals, u) else x.locals)
  }

  /** handleCheckUpdate, from x and q to x' and q': pushed at once, or queued, and then processed with everything else
      that is pending if that makes a full batch. */
  ghost predicate Handled(x: Side, q: Queue, u: Update, current: bool, holding: Option<string>,
                          x': Side, q': Queue, blocked: bool, batch: seq<Update>, orders: seq<seq<nat>>)
  {
    && SameButState(x.locals, x'.locals)
    && match q
    case Immediate => q' == Immediate && !blocked && batch == [] && x' == PushAndFollow(x, u, current)
    case Queued(pending) =>
      var more := pending[u.key := u];
      if |more| < MAX_TXN_OPS then q' == Queued(more) && !blocked && batch == [] && x' == x
      else
        && q' == Queued(map[]) && Enumerates(batch, more)
        && (blocked <==> holding.Some? && ProcessNeedsLock(x, batch, orders, holding.value))
        && (!blocked ==> x' == Process(x, batch, orders).0)
  }
}
