/** check.go: what holds of batches, whatever the server and the outside do: accounting, failures that are noticed or
    forgotten, locks that are waited for; and what holds when nobody interferes. */
module BatchLaws {
  import opened Keys
  import opened Options
  import opened Definitions
  import opened Store
  import opened Batcher
  import opened Batches

  // ---------------------------------------------------------------- accounting

  lemma GatherOneMore(s: Server, us: seq<Update>)
    requires us != []
    ensures var g, g' := Gather(s, us[..|us| - 1]), Gather(s, us);
            var node := us[|us| - 1].node;
      && (node in g'.fetched || node in g'.failed)
      && (forall m | m != node :: (m in g'.fetched <==> m in g.fetched) && (m in g'.failed <==> m in g.failed))
      && (node in g.fetched ==> g' == g) && (node in g.failed ==> node in g'.failed)
  {
  }

  lemma {:induction false} GatherCovers(s: Server, us: seq<Update>)
    ensures var g := Gather(s, us);
      && (forall u | u in us :: u.node in g.fetched || u.node in g.failed)
      && (forall node | node in g.fetched || node in g.failed :: exists u | u in us :: u.node == node)
  {
    if us != [] {
      var front, last := us[..|us| - 1], us[|us| - 1];
      assert us == front + [last] && last in us;
      GatherCovers(s, front);
      GatherOneMore(s, us);
    }
  }

  /** Each update of a batch is accounted for: reverted because a fetch of its node failed, skipped because its check is
      gone, or sent; in exactly one way, unless a fetch of its node failed and a later one brought an answer. */
  lemma EachInOneWay(s: Server, us: seq<Update>, u: Update)
    requires u in us
    ensures var g := Gather(s, us);
            var reverted := u in Failing(us, g.failed);
            var sent := u in Kept(us, g.fetched);
            var skipped := u.node in g.fetched && Target(u) !in g.fetched[u.node];
      && (reverted || sent || skipped)
      && !(sent && skipped)
      && (reverted && (sent || skipped) <==> u.node in g.failed && u.node in g.fetched)
  {
    GatherCovers(s, us);
    KeptMeans(us, Gather(s, us).fetched);
    FailingMeans(us, Gather(s, us).failed);
  }

  /** Both do happen. Of two updates of one node the first fetch fails and the second does not: both are reverted, and
      both are sent all the same. */
  lemma BothWays(s: Server, u: Update, w: Update)
    requires u.node == w.node && s.script == [Turn([], LoseRequest)] && Target(u) in s.world.entries
    ensures var g := Gather(s, [u, w]);
      u in Failing([u, w], g.failed) && w in Failing([u, w], g.failed) && u in Kept([u, w], g.fetched)
  {
    var us := [u, w];
    assert us[..1] == [u] && [u][..0] == [] && Gather(s, []) == Gathered(s, map[], {});
    assert ForeignSteps(s.world, []) == s.world && LaterTurns(s.script) == [];
    var g1 := Gather(s, [u]);
    assert g1.fetched == map[] && g1.server.script == [] && g1.server.world == s.world;
    assert ForeignSteps(g1.server.world, []) == g1.server.world;
    FailingMeans(us, Gather(s, us).failed);
    KeptMeans(us, Gather(s, us).fetched);
  }

  /** What is kept goes into transactions in order; all but the last hold 64 operations, and operation i of each is
      that of its update i. */
  lemma TransactionsHoldTheKept(us: seq<Update>, fetched: Fetched)
    ensures var kept := Kept(us, fetched); var chunks := Chunks(kept);
      && CutsInto(kept, chunks) && AllChunksExist(chunks, fetched)
      && forall i | 0 <= i < |chunks| :: |OpsFor(chunks[i], fetched)| <= 64
           && forall k | 0 <= k < |chunks[i]| :: OpsFor(chunks[i], fetched)[k].key == Target(chunks[i][k])
  {
    ChunksCut(Kept(us, fetched));
    KeptChunksExist(us, fetched);
  }

  // ---------------------------------------------------------------- a failure is noticed

  /** The updates of different transactions are of different checks. */
  ghost predicate ChunksSeparate(chunks: seq<seq<Update>>) {
    && (forall i | 0 <= i < |chunks| :: SeparateHashes(chunks[i]))
    && (forall i, j, u, v | 0 <= i < j < |chunks| && u in chunks[i] && v in chunks[j] :: u.hash != v.hash)
  }

  lemma SeparateParts(us: seq<Update>, vs: seq<Update>)
    requires SeparateHashes(us + vs)
    ensures SeparateHashes(us) && SeparateHashes(vs)
    ensures forall u, v | u in us && v in vs :: u.hash != v.hash
  {
    var all := us + vs;
    forall i, j | 0 <= i < j < |us| ensures us[i].hash != us[j].hash {
      assert all[i].hash != all[j].hash;
    }
    forall i, j | 0 <= i < j < |vs| ensures vs[i].hash != vs[j].hash {
      assert all[|us| + i].hash != all[|us| + j].hash;
    }
    forall i, j | 0 <= i < |us| && 0 <= j < |vs| ensures us[i].hash != vs[j].hash {
      assert all[i].hash != all[|us| + j].hash;
    }
  }

  lemma {:induction false} SeparateChunks(chunks: seq<seq<Update>>)
    requires SeparateHashes(Flatten(chunks))
    ensures ChunksSeparate(chunks)
  {
    if chunks != [] {
      var n := |chunks| - 1;
      SeparateParts(Flatten(chunks[..n]), chunks[n]);
      SeparateChunks(chunks[..n]);
      forall i, u, v | 0 <= i < n && u in chunks[i] && v in chunks[n] ensures u.hash != v.hash {
        FlattenMember(chunks[..n], i, u);
      }
    }
  }

  /** Later reverts of other checks leave a reverted one alone. */
  lemma StaysReverted(v: Locals, w: Locals, us: seq<Update>, u: Update)
    requires IsReverted(v, u) && OnlyReverts(v, w, us) && forall o | o in us :: o.hash != u.hash
    ensures IsReverted(w, u)
  {
  }

  /** Those of the first transactions that failed plainly are reverted in v. */
  ghost predicate FailedReverted(v: Locals, chunks: seq<seq<Update>>, replies: seq<Reply>) {
    && |replies| == |chunks|
    && forall i, u | 0 <= i < |chunks| && FailedPlainly(replies[i]) && u in chunks[i] :: IsReverted(v, u)
  }

  lemma OneMoreTransaction(
      v: Locals, w: Locals, chunks: seq<seq<Update>>, replies: seq<Reply>, us: seq<Update>, reply: Reply)
    requires FailedReverted(v, chunks, replies) && OnlyReverts(v, w, us)
    requires forall i, u, o | 0 <= i < |chunks| && u in chunks[i] && o in us :: u.hash != o.hash
    requires FailedPlainly(reply) ==> forall u | u in us :: IsReverted(w, u)
    ensures FailedReverted(w, chunks + [us], replies + [reply])
  {
    forall i, u | 0 <= i < |chunks| && FailedPlainly(replies[i]) && u in chunks[i] ensures IsReverted(w, u) {
      StaysReverted(v, w, us, u);
    }
  }

  lemma LastIsSeparate(chunks: seq<seq<Update>>)
    requires ChunksSeparate(chunks) && chunks != []
    ensures var front, us := chunks[..|chunks| - 1], chunks[|chunks| - 1];
      && ChunksSeparate(front) && SeparateHashes(us)
      && forall i, u, o | 0 <= i < |front| && u in front[i] && o in us :: u.hash != o.hash
  {
  }

  /** Whatever the other transactions do, the updates of one that failed plainly end up reverted. */
  lemma {:induction false} FailedAreReverted(x: Side, chunks: seq<seq<Update>>, fetched: Fetched, orders: seq<seq<nat>>)
    requires AllChunksExist(chunks, fetched) && ChunksSeparate(chunks)
    ensures var (y, replies) := SendAll(x, chunks, fetched, orders);
      FailedReverted(y.locals, chunks, replies) && OnlyReverts(x.locals, y.locals, Flatten(chunks))
  {
    if chunks != [] {
      var n := |chunks| - 1;
      var front, us, order := chunks[..n], chunks[n], NthOrder(orders, n);
      var (y, replies) := SendAll(x, front, fetched, orders);
      LastIsSeparate(chunks);
      FailedAreReverted(x, front, fetched, orders);
      assert chunks == front + [us];
      FlattenSnoc(front, us);
      AddTransaction(x, y, replies, front, us, fetched, order);
    }
  }

  lemma AddTransaction(x: Side, y: Side, replies: seq<Reply>, front: seq<seq<Update>>, us: seq<Update>,
                       fetched: Fetched, order: seq<nat>)
    requires AllExist(us, fetched) && SeparateHashes(us)
    requires forall i, u, o | 0 <= i < |front| && u in front[i] && o in us :: u.hash != o.hash
    requires FailedReverted(y.locals, front, replies) && OnlyReverts(x.locals, y.locals, Flatten(front))
    ensures var (z, reply) := Execute(y, us, fetched, order);
      && FailedReverted(z.locals, front + [us], replies + [reply])
      && OnlyReverts(x.locals, z.locals, Flatten(front) + us)
  {
    ExecuteOnlyReverts(y, us, fetched, order);
    FailedIsReverted(y, us, fetched, order);
    var (z, reply) := Execute(y, us, fetched, order);
    OnlyRevertsCompose(x.locals, y.locals, z.locals, Flatten(front), us, Flatten(front) + us);
    OneMoreTransaction(y.locals, z.locals, front, replies, us, reply);
  }

  /** An update is worth sending: if it has an old state, that differs from the new one. */
  predicate HasNews(u: Update) {
    u.oldStatus != "" || u.oldOutput != "" ==> (u.oldStatus, u.oldOutput) != (u.status, u.output)
  }

  /** The same result again is not taken for old news. */
  predicate WillBeNoticed(v: Locals, u: Update) {
    (u.oldStatus != "" || u.oldOutput != "") && u.hash in v ==>
      (v[u.hash].hc.status, v[u.hash].hc.output) != (u.status, u.output)
  }

  /** What a batch does to the local states: first the reverts of what could not be fetched, then those of
      transactions. */
  lemma ProcessReverts(x: Side, us: seq<Update>, orders: seq<seq<nat>>)
    requires SeparateHashes(us)
    ensures var (y, replies) := Process(x, us, orders);
            var g := Gather(x.server, us);
            var failing, kept := Failing(us, g.failed), Kept(us, g.fetched);
            var v := RevertAll(x.locals, failing);
      && OnlyReverts(x.locals, v, failing) && OnlyReverts(v, y.locals, kept)
      && FailedReverted(y.locals, Chunks(kept), replies)
      && forall u | u in failing :: IsReverted(v, u)
  {
    var g := Gather(x.server, us);
    var failing, kept := Failing(us, g.failed), Kept(us, g.fetched);
    var chunks := Chunks(kept);
    FailingSeparate(us, g.failed);
    RevertAllReverts(x.locals, failing);
    KeptMeans(us, g.fetched);
    ChunksCut(kept);
    SeparateChunks(chunks);
    KeptChunksExist(us, g.fetched);
    FailedAreReverted(Side(g.server, RevertAll(x.locals, failing)), chunks, g.fetched, orders);
  }

  /** A failed batch is noticed. After the batch, the check of every update of a transaction that failed plainly, and of
      every one whose node could not be fetched at all, has its old state back, if there is one and the check is still
      tracked; so the failed result is news again. Nothing else changes but by a revert. */
  lemma FailureIsNoticed(x: Side, us: seq<Update>, orders: seq<seq<nat>>)
    requires SeparateHashes(us)
    ensures var (y, replies) := Process(x, us, orders);
            var g := Gather(x.server, us);
            var chunks := Chunks(Kept(us, g.fetched));
      && |replies| == |chunks|
      && (forall i, u | 0 <= i < |chunks| && FailedPlainly(replies[i]) && u in chunks[i] :: IsReverted(y.locals, u))
      && (forall u | u in us && u.node in g.failed && u.node !in g.fetched :: IsReverted(y.locals, u))
      && (forall u | IsReverted(y.locals, u) && HasNews(u) :: WillBeNoticed(y.locals, u))
      && OnlyReverts(x.locals, y.locals, us)
  {
    var (y, replies) := Process(x, us, orders);
    var g := Gather(x.server, us);
    var failing := Failing(us, g.failed);
    ProcessReverts(x, us, orders);
    BatchIsReverted(x.locals, RevertAll(x.locals, failing), y.locals, us, g, replies);
  }

  lemma BatchIsReverted(v: Locals, w: Locals, z: Locals, us: seq<Update>, g: Gathered, replies: seq<Reply>)
    requires SeparateHashes(us)
    requires OnlyReverts(v, w, Failing(us, g.failed)) && OnlyReverts(w, z, Kept(us, g.fetched))
    requires FailedReverted(z, Chunks(Kept(us, g.fetched)), replies)
    requires forall u | u in Failing(us, g.failed) :: IsReverted(w, u)
    ensures var chunks := Chunks(Kept(us, g.fetched));
            forall i, u | 0 <= i < |chunks| && FailedPlainly(replies[i]) && u in chunks[i] :: IsReverted(z, u)
    ensures forall u | u in us && u.node in g.failed && u.node !in g.fetched :: IsReverted(z, u)
    ensures OnlyReverts(v, z, us)
  {
    var kept := Kept(us, g.fetched);
    var chunks := Chunks(kept);
    FailingMeans(us, g.failed);
    KeptMeans(us, g.fetched);
    ChunksCut(kept);
    OnlyRevertsCompose(v, w, z, Failing(us, g.failed), kept, us);
    forall i, u | 0 <= i < |chunks| && FailedPlainly(replies[i]) && u in chunks[i] ensures IsReverted(z, u) {
      FlattenMember(chunks, i, u);
    }
    forall u | u in us && u.node in g.failed && u.node !in g.fetched ensures IsReverted(z, u) {
      forall o | o in kept ensures o.hash != u.hash {
        SameHash(us, u, o);
      }
      StaysReverted(w, z, kept, u);
    }
  }

  /** The transaction that the update is in fails plainly, or its node cannot be fetched. */
  ghost predicate FailsFor(x: Side, us: seq<Update>, orders: seq<seq<nat>>, u: Update) {
    var g := Gather(x.server, us);
    var chunks, replies := Chunks(Kept(us, g.fetched)), Process(x, us, orders).1;
    || (u in us && u.node in g.failed && u.node !in g.fetched)
    || exists i :: 0 <= i < |chunks| && i < |replies| && u in chunks[i] && FailedPlainly(replies[i])
  }

  lemma FailedIsBack(x: Side, us: seq<Update>, orders: seq<seq<nat>>, u: Update)
    requires SeparateHashes(us) && FailsFor(x, us, orders, u)
    ensures var v := Process(x, us, orders).0.locals; IsReverted(v, u) && v.Keys == x.locals.Keys
  {
    FailureIsNoticed(x, us, orders);
  }

  /** The updates of a batch are of separate hashes at least when no check id holds a slash. */
  lemma SlashFreeIDsSeparate(us: seq<Update>)
    requires DistinctKeys(us) && forall u | u in us :: WellNamed(u) && NoSlash(u.checkID)
    ensures SeparateHashes(us)
  {
    forall i, j | 0 <= i < j < |us| ensures us[i].hash != us[j].hash {
      if us[i].hash == us[j].hash {
        WellNamedHashes(us[i], us[j]);
      }
    }
  }

  lemma SameHash(us: seq<Update>, u: Update, w: Update)
    requires SeparateHashes(us) && u in us && w in us && u != w
    ensures u.hash != w.hash
  {
    var i :| 0 <= i < |us| && us[i] == u;
    var j :| 0 <= j < |us| && us[j] == w;
    assert i < j || j < i;
  }

  lemma {:induction false} FailingSeparate(us: seq<Update>, failed: set<string>)
    requires SeparateHashes(us)
    ensures SeparateHashes(Failing(us, failed))
  {
    if us != [] {
      var front, last := us[..|us| - 1], us[|us| - 1];
      FailingSeparate(front, failed);
      FailingMeans(front, failed);
      var rest := Failing(front, failed);
      forall i | 0 <= i < |rest| ensures rest[i].hash != last.hash {
        assert rest[i] in front;
        var j :| 0 <= j < |front| && us[j] == rest[i];
      }
    }
  }

  // ---------------------------------------------------------------- when nobody interferes

  /** The entries after writing the updates whose checks exist; nothing else changes, nothing appears. */
  ghost predicate Wrote(e: Entries, e': Entries, us: seq<Update>) {
    && e'.Keys == e.Keys
    && (forall u | u in us && Target(u) in e :: e'[Target(u)].val == Edited(e[Target(u)].val, u))
    && (forall k | k in e && forall u | u in us :: Target(u) != k :: e'[k] == e[k])
  }

  lemma WellNamedTargets(us: seq<Update>)
    requires DistinctKeys(us) && forall u | u in us :: WellNamed(u)
    ensures SeparateTargets(us)
  {
    forall i, j | 0 <= i < j < |us| ensures Target(us[i]) != Target(us[j]) {
      WellNamedKeys(us[i], us[j]);
      WellNamedKeys(us[j], us[i]);
    }
  }

  /** A transaction made from entries that are still current writes all of them. */
  lemma QuietTxnWrites(e: Entries, us: seq<Update>, fetched: Fetched, n: nat, lenient: bool)
    requires AllExist(us, fetched) && SeparateTargets(us)
    requires forall u | u in us :: Target(u) in e && e[Target(u)] == fetched[u.node][Target(u)]
    ensures var (e', errors) := RunOps(e, OpsFor(us, fetched), n, lenient); errors == [] && Wrote(e, e', us)
  {
    var ops := OpsFor(us, fetched);
    forall op | op in ops ensures op.Cas? && op.key in e && e[op.key].index == op.index {
      var i :| 0 <= i < |ops| && ops[i] == op;
      assert us[i] in us;
    }
    forall i, j | 0 <= i < j < |ops| ensures ops[i].key != ops[j].key {
      assert Target(us[i]) != Target(us[j]);
    }
    CurrentCasesSucceed(e, ops, n, lenient);
    var e' := RunOps(e, ops, n, lenient).0;
    forall u | u in us ensures e'[Target(u)].val == Edited(e[Target(u)].val, u) {
      var i :| 0 <= i < |us| && us[i] == u;
      assert ops[i] in ops;
    }
    forall k | k in e && forall u | u in us :: Target(u) != k ensures e'[k] == e[k] {
      forall op | op in ops ensures op.key != k {
        var i :| 0 <= i < |ops| && ops[i] == op;
        assert us[i] in us;
      }
    }
  }

  lemma WroteCompose(e: Entries, e1: Entries, e2: Entries, us: seq<Update>, vs: seq<Update>)
    requires Wrote(e, e1, us) && Wrote(e1, e2, vs)
    requires forall u, v | u in us && v in vs :: Target(u) != Target(v)
    ensures Wrote(e, e2, us + vs)
  {
    forall k | k in e && forall u | u in us + vs :: Target(u) != k ensures e2[k] == e[k] {
      assert forall u | u in us :: u in us + vs;
      assert forall v | v in vs :: v in us + vs;
    }
    forall u | u in us + vs && Target(u) in e ensures e2[Target(u)].val == Edited(e[Target(u)].val, u) {
      if u in us {
        assert e2[Target(u)] == e1[Target(u)];
      } else {
        assert e1[Target(u)] == e[Target(u)];
      }
    }
  }

  lemma QuietSubmit(s: Server, us: seq<Update>, fetched: Fetched)
    requires s.script == [] && AllExist(us, fetched) && SeparateTargets(us)
    requires forall u | u in us ::
      Target(u) in s.world.entries && s.world.entries[Target(u)] == fetched[u.node][Target(u)]
    ensures var (s', reply) := Submit(s, OpsFor(us, fetched), 0);
      s'.script == [] && reply == Reply(true, []) && Wrote(s.world.entries, s'.world.entries, us)
  {
    QuietTxnWrites(s.world.entries, us, fetched, s.world.index + 1, s.world.lenientDelete);
    QuietCommit(s, OpsFor(us, fetched), 0);
  }

  /** With nobody interfering, read, edit and compare-and-set writes the check, if there is one. */
  lemma QuietPush(s: Server, u: Update)
    requires s.script == []
    ensures var (s', p) := PushOne(s, u);
      && s'.script == [] && Wrote(s.world.entries, s'.world.entries, [u])
      && p == if Target(u) in s.world.entries then Sent(Reply(true, [])) else Gone
  {
    QuietAsk(s, ChecksOf(u.node));
    var (s1, found) := Ask(s, ChecksOf(u.node));
    if Target(u) in s.world.entries {
      var fetched := map[u.node := found.value];
      QuietSubmit(s1, [u], fetched);
      assert OpsFor([u], fetched) == [OpFor(u, found.value[Target(u)])];
    }
  }

  lemma {:induction false} QuietGather(s: Server, us: seq<Update>)
    requires s.script == []
    ensures var g := Gather(s, us);
      && g.server.script == [] && g.server.world.entries == s.world.entries && g.failed == {}
      && (forall node | node in g.fetched :: g.fetched[node] == Visible(s.world.entries, ChecksOf(node)))
      && (forall u | u in us :: u.node in g.fetched)
  {
    if us != [] {
      var front, last := us[..|us| - 1], us[|us| - 1];
      assert us == front + [last];
      QuietGather(s, front);
      QuietAsk(Gather(s, front).server, ChecksOf(last.node));
    }
  }

  /** What was fetched for these updates is still what the server holds. */
  ghost predicate Current(e: Entries, us: seq<Update>, fetched: Fetched) {
    forall u | u in us :: Exists(u, fetched) && Target(u) in e && e[Target(u)] == fetched[u.node][Target(u)]
  }

  lemma QuietExecute(x: Side, us: seq<Update>, fetched: Fetched, order: seq<nat>)
    requires x.server.script == [] && AllExist(us, fetched) && SeparateTargets(us)
    requires Current(x.server.world.entries, us, fetched)
    ensures var (y, reply) := Execute(x, us, fetched, order);
      && y.server.script == [] && y.locals == x.locals
      && Wrote(x.server.world.entries, y.server.world.entries, us)
    ensures forall h :: !ExecuteNeedsLock(x, us, fetched, order, h)
  {
    QuietSubmit(x.server, us, fetched);
  }

  lemma TargetParts(us: seq<Update>, vs: seq<Update>)
    requires SeparateTargets(us + vs)
    ensures SeparateTargets(us) && SeparateTargets(vs)
    ensures forall u, v | u in us && v in vs :: Target(u) != Target(v)
  {
    var all := us + vs;
    forall i, j | 0 <= i < j < |us| ensures Target(us[i]) != Target(us[j]) {
      assert Target(all[i]) != Target(all[j]);
    }
    forall i, j | 0 <= i < j < |vs| ensures Target(vs[i]) != Target(vs[j]) {
      assert Target(all[|us| + i]) != Target(all[|us| + j]);
    }
    forall i, j | 0 <= i < |us| && 0 <= j < |vs| ensures Target(us[i]) != Target(vs[j]) {
      assert Target(all[i]) != Target(all[|us| + j]);
    }
  }

  lemma {:induction false} QuietSend(x: Side, chunks: seq<seq<Update>>, fetched: Fetched, orders: seq<seq<nat>>)
    requires x.server.script == [] && AllChunksExist(chunks, fetched) && SeparateTargets(Flatten(chunks))
    requires Current(x.server.world.entries, Flatten(chunks), fetched)
    ensures var (y, replies) := SendAll(x, chunks, fetched, orders);
      && y.server.script == [] && y.locals == x.locals
      && Wrote(x.server.world.entries, y.server.world.entries, Flatten(chunks))
    ensures forall h :: !SendNeedsLock(x, chunks, fetched, orders, h)
  {
    if chunks != [] {
      var n := |chunks| - 1;
      var front, us := Flatten(chunks[..n]), chunks[n];
      TargetParts(front, us);
      assert forall u | u in front :: u in Flatten(chunks);
      assert forall u | u in us :: u in Flatten(chunks);
      QuietSend(x, chunks[..n], fetched, orders);
      var y := SendAll(x, chunks[..n], fetched, orders).0;
      QuietExecute(y, us, fetched, NthOrder(orders, n));
      var z := Execute(y, us, fetched, NthOrder(orders, n)).0;
      WroteCompose(x.server.world.entries, y.server.world.entries, z.server.world.entries, front, us);
    }
  }

  /** With nobody interfering, a batch writes the status and output of every update whose check exists, changes no other
      entry, creates none, reverts nothing and waits for no lock. */
  lemma QuietBatchIsWritten(x: Side, us: seq<Update>, orders: seq<seq<nat>>)
    requires x.server.script == [] && SeparateTargets(us)
    ensures var y := Process(x, us, orders).0;
      && y.server.script == [] && y.locals == x.locals
      && Wrote(x.server.world.entries, y.server.world.entries, us)
    ensures forall h :: !ProcessNeedsLock(x, us, orders, h)
  {
    var e := x.server.world.entries;
    QuietGather(x.server, us);
    var g := Gather(x.server, us);
    var kept := Kept(us, g.fetched);
    KeptMeans(us, g.fetched);
    ChunksCut(kept);
    KeptChunksExist(us, g.fetched);
    FailingMeans(us, g.failed);
    QuietSend(Side(g.server, x.locals), Chunks(kept), g.fetched, orders);
  }

  // ---------------------------------------------------------------- what a stale index leaves behind

  lemma {:induction false} QuietRetries(x: Side, us: seq<Update>, order: seq<nat>, k: Key)
    requires x.server.script == [] && forall i | i in order && i < |us| :: Target(us[i]) != k
    ensures var y := RetryAll(x, us, order);
      && y.server.script == [] && y.locals == x.locals
      && Get(y.server.world.entries, k) == Get(x.server.world.entries, k)
  {
    if order != [] {
      var front, i := order[..|order| - 1], order[|order| - 1];
      assert i in order;
      QuietRetries(x, us, front, k);
      if i < |us| {
        QuietPush(RetryAll(x, us, front).server, us[i]);
      }
    }
  }

  /** Whether a push of one check is applied, be it acknowledged or not. */
  function PushCommits(s: Server, u: Update): bool {
    var (s1, found) := Ask(s, ChecksOf(u.node));
    found.Some? && Target(u) in found.value && TxnCommits(s1, [OpFor(u, found.value[Target(u)])])
  }

  lemma PushWrites(s: Server, u: Update, k: Key)
    ensures var (s', p) := PushOne(s, u);
      && s.world.trace <= s'.world.trace
      && (WrittenSince(s.world, s'.world, k) <==> PushCommits(s, u) && k == Target(u))
      && (Took(p) ==> PushCommits(s, u)) && (Rejected(p) ==> !PushCommits(s, u))
  {
    AskWritesNothing(s, ChecksOf(u.node), k);
    var (s1, found) := Ask(s, ChecksOf(u.node));
    if found.Some? && Target(u) in found.value {
      var ops := [OpFor(u, found.value[Target(u)])];
      SubmitWrites(s1, ops, 0, k);
      assert ops[0] in ops && OpTouches(ops[0], Target(u));
      WrittenInParts(s.world, s1.world, PushOne(s, u).0.world, k);
    }
  }

  /** The server as the retry of update i finds it. */
  function AtRetry(x: Side, us: seq<Update>, order: seq<nat>, i: nat): Server
    requires i in order
  {
    var n := |order| - 1;
    if order[n] == i then RetryAll(x, us, order[..n]).server else AtRetry(x, us, order[..n], i)
  }

  lemma OneRetryWrites(y: Side, us: seq<Update>, j: nat, i: nat)
    requires SeparateTargets(us) && i < |us| && j < |us|
    ensures var w := RetryOne(y, us[j]).server.world;
      && y.server.world.trace <= w.trace
      && (WrittenSince(y.server.world, w, Target(us[i])) <==> i == j && PushCommits(y.server, us[j]))
  {
    PushWrites(y.server, us[j], Target(us[i]));
    assert Target(us[j]) == Target(us[i]) ==> i == j;
  }

  lemma LastIsNew(order: seq<nat>)
    requires NoRepeats(order) && order != []
    ensures var n := |order| - 1; NoRepeats(order[..n]) && order[n] !in order[..n]
  {
  }

  /** Retries write a check exactly if its own is applied. */
  lemma {:induction false} RetriesWrite(x: Side, us: seq<Update>, order: seq<nat>, i: nat)
    requires SeparateTargets(us) && i < |us| && NoRepeats(order)
    ensures var w := RetryAll(x, us, order).server.world;
      && x.server.world.trace <= w.trace
      && (WrittenSince(x.server.world, w, Target(us[i]))
          <==> i in order && PushCommits(AtRetry(x, us, order, i), us[i]))
  {
    if order != [] {
      var n := |order| - 1;
      var front, j := order[..n], order[n];
      assert order == front + [j];
      LastIsNew(order);
      RetriesWrite(x, us, front, i);
      if j < |us| {
        var y := RetryAll(x, us, front);
        OneRetryWrites(y, us, j, i);
        WrittenInParts(x.server.world, y.server.world, RetryOne(y, us[j]).server.world, Target(us[i]));
      }
    }
  }

  lemma OneRetryReverts(y: Side, u: Update, h: string)
    requires h in y.locals
    ensures var v := RetryOne(y, u).locals;
      && h in v
      && v[h] == if u.hash == h && Rejected(PushOne(y.server, u).1) then Revert(y.locals, u)[h] else y.locals[h]
  {
  }

  /** ... and revert it exactly if its own is rejected. */
  lemma {:induction false} RetriesRevert(x: Side, us: seq<Update>, order: seq<nat>, i: nat)
    requires SeparateHashes(us) && i < |us| && NoRepeats(order) && us[i].hash in x.locals
    ensures var v, h := RetryAll(x, us, order).locals, us[i].hash;
            var rejected := i in order && Rejected(PushOne(AtRetry(x, us, order, i), us[i]).1);
      h in v && v[h] == if rejected then BroughtBack(x.locals[h], us[i]) else x.locals[h]
  {
    if order != [] {
      var n := |order| - 1;
      var front, j := order[..n], order[n];
      assert order == front + [j];
      LastIsNew(order);
      RetriesRevert(x, us, front, i);
      if j < |us| {
        OneRetryReverts(RetryAll(x, us, front), us[j], us[i].hash);
        assert us[j].hash == us[i].hash ==> i == j;
      }
    }
  }

  /** A rejected retry reverts a deferred update as well, which has no old state to go back to: the check is left with
      empty status and output, and that is the only way it gets there. */
  lemma RetryErasesState(x: Side, u: Update)
    requires u.hash in x.locals && (x.locals[u.hash].hc.status, x.locals[u.hash].hc.output) != ("", "")
    ensures var hc := RetryOne(x, u).locals[u.hash].hc;
      (hc.status, hc.output) == ("", "") <==> !NeedsRevert(u) && Rejected(PushOne(x.server, u).1)
  {
    OneRetryReverts(x, u, u.hash);
  }

  /** An error of the answer gives a stale index as its reason, at that position. */
  predicate Names(reply: Reply, i: nat) {
    reply.Reply? && exists e | e in reply.errors :: e.stale && e.opIndex == i
  }

  /** The transaction fails with stale indices, and the order is one of the positions that its errors name. */
  ghost predicate IsStale(x: Side, us: seq<Update>, fetched: Fetched, order: seq<nat>)
    requires AllExist(us, fetched)
  {
    var reply := Submit(x.server, OpsFor(us, fetched), 0).1;
    && reply.Reply? && (exists e | e in reply.errors :: e.stale)
    && NoRepeats(order) && forall i: nat :: i in order <==> Names(reply, i)
  }

  lemma StaleMeans(reply: Reply)
    requires reply.Reply? && exists e | e in reply.errors :: e.stale
    ensures FailsStale(reply) && !FailsWhole(reply)
    ensures forall i: nat :: i in StaleIndices(reply.errors) <==> Names(reply, i)
  {
  }

  /** The server as the retry of update i finds it, after that transaction. */
  function AfterAt(x: Side, us: seq<Update>, fetched: Fetched, order: seq<nat>, i: nat): Server
    requires AllExist(us, fetched) && i in order
  {
    AtRetry(Side(Submit(x.server, OpsFor(us, fetched), 0).0, x.locals), us, order, i)
  }

  lemma StaleWrites(x: Side, us: seq<Update>, fetched: Fetched, order: seq<nat>, i: nat)
    requires AllExist(us, fetched) && SeparateTargets(us) && i < |us| && IsStale(x, us, fetched, order)
    ensures var y := Execute(x, us, fetched, order).0;
      WrittenSince(x.server.world, y.server.world, Target(us[i]))
      <==> i in order && PushCommits(AfterAt(x, us, fetched, order, i), us[i])
  {
    var s1 := Submit(x.server, OpsFor(us, fetched), 0).0;
    var x1 := Side(s1, x.locals);
    StaleMeans(Submit(x.server, OpsFor(us, fetched), 0).1);
    SubmitWrites(x.server, OpsFor(us, fetched), 0, Target(us[i]));
    RetriesWrite(x1, us, order, i);
    WrittenInParts(x.server.world, s1.world, RetryAll(x1, us, order).server.world, Target(us[i]));
  }

  /** A stale index undoes the whole transaction. Afterwards, whatever the outside does, an update of it is written
      exactly if an error names it and its retry is applied; and its check is reverted exactly if an error names it
      and its retry is rejected. So it is forgotten (neither written nor reverted, with the check going on as if it
      had been written) if it is not named, and also if it is named and its retry cannot be read, finds no check, or
      gets lost. */
  lemma AfterAStaleIndex(x: Side, us: seq<Update>, fetched: Fetched, order: seq<nat>, i: nat)
    requires AllExist(us, fetched) && SeparateTargets(us) && SeparateHashes(us) && i < |us|
    requires IsStale(x, us, fetched, order)
    ensures var (y, reply) := Execute(x, us, fetched, order);
            var u := us[i];
      && (i in order <==> Names(reply, i))
      && (WrittenSince(x.server.world, y.server.world, Target(u))
          <==> i in order && PushCommits(AfterAt(x, us, fetched, order, i), u))
      && (u.hash in x.locals ==>
            && u.hash in y.locals
            && var t := x.locals[u.hash];
               y.locals[u.hash] == if i in order && HasErrors(PushOne(AfterAt(x, us, fetched, order, i), u).1)
                                   then t.(hc := t.hc.(status := u.oldStatus, output := u.oldOutput)) else t)
  {
    StaleMeans(Submit(x.server, OpsFor(us, fetched), 0).1);
    StaleWrites(x, us, fetched, order, i);
    if us[i].hash in x.locals {
      RetriesRevert(Side(Submit(x.server, OpsFor(us, fetched), 0).0, x.locals), us, order, i);
    }
  }

  /** The push was answered, with errors. */
  predicate HasErrors(p: Push) {
    match p
    case Sent(Reply(_, errors)) => errors != []
    case _ => false
  }

  /** In particular, with nobody interfering after the stale index, the entry of an update that is not named is what the
      other writers had left. */
  lemma UnnamedAreForgotten(x: Side, us: seq<Update>, fetched: Fetched, order: seq<nat>, i: nat)
    requires AllExist(us, fetched) && SeparateTargets(us) && i < |us|
    requires |x.server.script| <= 1 && IsStale(x, us, fetched, order) && i !in order
    ensures var y := Execute(x, us, fetched, order).0; var k := Target(us[i]);
      && y.locals == x.locals
      && Get(y.server.world.entries, k)
         == Get(ForeignSteps(x.server.world, NextTurn(x.server.script).writes).entries, k)
  {
    forall j | j in order && j < |us| ensures Target(us[j]) != Target(us[i]) {
      assert Target(us[if j < i then j else i]) != Target(us[if j < i then i else j]);
    }
    var s := Submit(x.server, OpsFor(us, fetched), 0).0;
    StaleMeans(Submit(x.server, OpsFor(us, fetched), 0).1);
    QuietRetries(Side(s, x.locals), us, order, Target(us[i]));
  }

  /** And a named update may be forgotten as well: the read of its retry gets lost. */
  lemma LostRetryIsForgotten(x: Side, us: seq<Update>, fetched: Fetched, i: nat)
    requires AllExist(us, fetched) && i < |us|
    requires x.server.script == [Turn([], Refuse([TxnError(i, true)])), Turn([], LoseRequest)]
    ensures var y := Execute(x, us, fetched, [i]).0;
      && IsStale(x, us, fetched, [i])
      && y.locals == x.locals && y.server.world.entries == x.server.world.entries
  {
    var turn := NextTurn(x.server.script);
    var w := x.server.world;
    assert ForeignSteps(w, []) == w;
    assert TxnError(i, true) in [TxnError(i, true)] && [TxnError(i, true)][0].stale;
    assert StaleIndices([TxnError(i, true)]) == {i};
    var x1 := Side(Submit(x.server, OpsFor(us, fetched), 0).0, x.locals);
    assert [i][..0] == [] && RetryAll(x1, us, []) == x1;
    assert RetryAll(x1, us, [i]) == RetryOne(x1, us[i]);
  }

  // ---------------------------------------------------------------- a server out of reach

  ghost predicate OutOfReach(script: seq<Turn>, n: nat) {
    n <= |script| && forall i | 0 <= i < n :: script[i].fate == LoseRequest
  }

  lemma {:induction false} NothingIsFetched(s: Server, us: seq<Update>)
    requires OutOfReach(s.script, |us|)
    ensures var g := Gather(s, us); g.fetched == map[] && g.server.script == s.script[|us|..]
  {
    if us != [] {
      NothingIsFetched(s, us[..|us| - 1]);
    }
  }

  /** When no fetch of a batch gets through, all its updates are reverted, whosever lock that takes. */
  lemma UnreachableNeedsLock(x: Side, us: seq<Update>, orders: seq<seq<nat>>, u: Update)
    requires OutOfReach(x.server.script, |us|) && u in us && NeedsRevert(u) && u.hash in x.locals
    ensures ProcessNeedsLock(x, us, orders, u.hash)
  {
    NothingIsFetched(x.server, us);
    GatherCovers(x.server, us);
    FailingMeans(us, Gather(x.server, us).failed);
  }

  // ---------------------------------------------------------------- a writer that is always quicker

  /** Before each request somebody rewrites the entry. */
  function Meddling(k: Key, v: Val): Turn
    requires Fits(k, v)
  {
    Turn([AnyWrite.Put(k, v)], Answer)
  }

  ghost predicate AllTurns(script: seq<Turn>, turn: Turn, n: nat) {
    n <= |script| && forall i | 0 <= i < n :: script[i] == turn
  }

  lemma MeddledWorld(w: World, k: Key, v: Val)
    requires Fits(k, v)
    ensures var w' := ForeignSteps(w, Meddling(k, v).writes);
      k in w'.entries && w'.entries[k] == Entry(v, w.index + 1) && w'.index == w.index + 1
  {
    var writes := Meddling(k, v).writes;
    assert writes[..0] == [] && ForeignSteps(w, []) == w;
  }

  lemma MeddledAsk(s: Server, scope: Scope, k: Key, v: Val, n: nat)
    requires Fits(k, v) && AllTurns(s.script, Meddling(k, v), n + 1)
    ensures var (s', found) := Ask(s, scope);
      && AllTurns(s'.script, Meddling(k, v), n) && s'.world.index == s.world.index + 1
      && found.Some? && (InScope(scope, k) ==> k in found.value && found.value[k].index == s'.world.index)
  {
    MeddledWorld(s.world, k, v);
  }

  lemma {:induction false} MeddledGather(s: Server, us: seq<Update>, k: Key, v: Val, n: nat)
    requires Fits(k, v) && us != [] && Target(us[0]) == k && AllTurns(s.script, Meddling(k, v), |us| + n)
    ensures var g := Gather(s, us);
      && AllTurns(g.server.script, Meddling(k, v), n)
      && us[0].node in g.fetched && k in g.fetched[us[0].node]
      && g.fetched[us[0].node][k].index <= g.server.world.index
  {
    var front, last := us[..|us| - 1], us[|us| - 1];
    if front == [] {
      assert Gather(s, front) == Gathered(s, map[], {});
      MeddledAsk(s, ChecksOf(last.node), k, v, n);
    } else {
      MeddledGather(s, front, k, v, n + 1);
      MeddledAsk(Gather(s, front).server, ChecksOf(last.node), k, v, n);
    }
  }

  lemma {:induction false} FirstOpFails(m: Entries, ops: seq<Op>, n: nat, lenient: bool)
    requires ops != [] && !ops[0].Set? && ApplyOp(m, ops[0], n, lenient) == None
    ensures TxnError(0, true) in RunOps(m, ops, n, lenient).1
  {
    var last := |ops| - 1;
    if last == 0 {
      assert ops[..0] == [];
    } else {
      FirstOpFails(m, ops[..last], n, lenient);
    }
  }

  /** A transaction that begins with the meddled check fails with a stale index. */
  lemma MeddledSubmit(s: Server, ops: seq<Op>, k: Key, v: Val, n: nat)
    requires Fits(k, v) && AllTurns(s.script, Meddling(k, v), n + 1)
    requires ops != [] && ops[0].Cas? && ops[0].key == k && ops[0].index <= s.world.index
    ensures var (s', reply) := Submit(s, ops, 0);
      AllTurns(s'.script, Meddling(k, v), n) && reply.Reply? && TxnError(0, true) in reply.errors && FailsStale(reply)
  {
    MeddledWorld(s.world, k, v);
    var w := ForeignSteps(s.world, Meddling(k, v).writes);
    FirstOpFails(w.entries, ops, w.index + 1, w.lenientDelete);
    var e := TxnError(0, true);
    assert e in RunOps(w.entries, ops, w.index + 1, w.lenientDelete).1 && e.stale;
  }

  lemma MeddledPush(s: Server, u: Update, k: Key, v: Val)
    requires Fits(k, v) && Target(u) == k && AllTurns(s.script, Meddling(k, v), 2)
    ensures Rejected(PushOne(s, u).1)
  {
    MeddledAsk(s, ChecksOf(u.node), k, v, 1);
    var (s1, found) := Ask(s, ChecksOf(u.node));
    MeddledSubmit(s1, [OpFor(u, found.value[k])], k, v, 0);
  }

  /** So a retry of a deferred update does empty the state of its check, if a writer of that check is always quicker. */
  lemma MeddlingErasesState(x: Side, u: Update, v: Val)
    requires u.hash in x.locals && !NeedsRevert(u)
    requires Fits(Target(u), v) && AllTurns(x.server.script, Meddling(Target(u), v), 2)
    ensures var hc := RetryOne(x, u).locals[u.hash].hc; (hc.status, hc.output) == ("", "")
  {
    MeddledPush(x.server, u, Target(u), v);
    OneRetryReverts(x, u, u.hash);
  }

  lemma MeddledExecute(x: Side, us: seq<Update>, fetched: Fetched, k: Key, v: Val)
    requires AllExist(us, fetched) && us != [] && Target(us[0]) == k && us[0].hash in x.locals
    requires fetched[us[0].node][k].index <= x.server.world.index
    requires Fits(k, v) && AllTurns(x.server.script, Meddling(k, v), 3)
    ensures ExecuteNeedsLock(x, us, fetched, [0], us[0].hash)
  {
    MeddledSubmit(x.server, OpsFor(us, fetched), k, v, 2);
    var s := Submit(x.server, OpsFor(us, fetched), 0).0;
    MeddledPush(s, us[0], k, v);
    assert [0][..0] == [] && RetryAll(Side(s, x.locals), us, []) == Side(s, x.locals);
  }

  lemma {:induction false} FirstIsKept(us: seq<Update>, fetched: Fetched)
    requires us != [] && Exists(us[0], fetched)
    ensures var kept := Kept(us, fetched); kept != [] && kept[0] == us[0]
  {
    if |us| == 1 {
      assert us[..0] == [];
    } else {
      FirstIsKept(us[..|us| - 1], fetched);
    }
  }

  lemma {:induction false} FirstIsInFirst(us: seq<Update>)
    requires us != []
    ensures var chunks := Chunks(us); chunks != [] && chunks[0] != [] && chunks[0][0] == us[0]
  {
    if |us| == 1 {
      assert us[..0] == [];
    } else {
      FirstIsInFirst(us[..|us| - 1]);
      ChunksCut(us[..|us| - 1]);
    }
  }

  /** For any check there is an outside that makes the processing of any batch that begins with it revert it: another
      writer of that check who always comes in between. */
  lemma MeddlingNeedsLock(x: Side, us: seq<Update>, v: Val)
    requires us != [] && us[0].hash in x.locals && Fits(Target(us[0]), v)
    requires AllTurns(x.server.script, Meddling(Target(us[0]), v), |us| + 3)
    ensures ProcessNeedsLock(x, us, [[0]], us[0].hash)
  {
    var k := Target(us[0]);
    MeddledGather(x.server, us, k, v, 3);
    var g := Gather(x.server, us);
    var kept := Kept(us, g.fetched);
    FirstIsKept(us, g.fetched);
    FirstIsInFirst(kept);
    KeptChunksExist(us, g.fetched);
    var chunks := Chunks(kept);
    var y := Side(g.server, RevertAll(x.locals, Failing(us, g.failed)));
    NothingElseIsReverted(x.locals, Failing(us, g.failed));
    MeddledExecute(y, chunks[0], g.fetched, k, v);
    assert chunks[..1] == [chunks[0]] && [chunks[0]][..0] == [];
    assert SendAll(y, [], g.fetched, [[0]]) == (y, []);
    assert SendNeedsLock(y, chunks[..1], g.fetched, [[0]], us[0].hash);
    EarlierNeedsLock(y, chunks[..1], chunks, g.fetched, [[0]], us[0].hash);
  }
}
