/** check.go: the check runner. */
module Runner {
  import opened Options
  import opened Definitions
  import opened Counters
  import opened Resync
  import opened Tracking
  import opened Probes
  import opened Batcher
  import opened Store
  import opened Batches
  import opened Results

  /** A pending write-back of a changed output, with the object and the values it was made for. */
  datatype DeferredSync = DeferredSync(check: EsmHealthCheck, status: string, output: string)

  class CheckRunner {
    const client: Consul
    const settings: Settings
    const checks: CheckMap
    const probes: ProbeTable
    var batcher: CheckUpdateBatcher?
    var checksCritical: map<string, int>
    var deferCheck: map<string, DeferredSync>

    /** NewCheckRunner: only an agentless runner with a flush interval batches its updates. */
    constructor (client: Consul, settings: Settings, batchFlushInterval: int)
      ensures this.client == client && this.settings == settings
      ensures InPlace() && fresh(checks.repr) && fresh(probes.repr)
      ensures View() == Table(map[], map[], map[]) && probes.tidy && deferCheck == map[]
      ensures batcher != null <==> settings.agentless && batchFlushInterval != 0
      ensures batcher != null ==>
        fresh(batcher) && batcher.Valid() && batcher.pendingUpdates == map[] && batcher.maxBatchSize == MAX_TXN_OPS
    {
      this.client, this.settings := client, settings;
      checks := new CheckMap();
      probes := new ProbeTable();
      checksCritical, deferCheck := map[], map[];
      var b: CheckUpdateBatcher? := null;
      if settings.agentless && batchFlushInterval != 0 {
        b := new CheckUpdateBatcher(MAX_TXN_OPS);
      }
      batcher := b;
      NoProbes();
    }

    // -------------------------------------------------------------- the runner's maps as values

    /** The parts are in place and share nothing. */
    ghost predicate Apart()
      reads this, checks, probes
    {
      && this !in checks.repr && this !in probes.repr && checks.repr !! probes.repr
      && client !in checks.repr && client !in probes.repr
      && (batcher != null ==> batcher !in checks.repr && batcher !in probes.repr)
    }

    ghost predicate InPlace()
      reads this, checks, checks.repr, probes, probes.repr
    {
      checks.Valid() && probes.Valid() && Apart()
    }

    ghost function View(): Table
      reads this, checks, probes
    {
      Table(checks.view, Join(probes.view), checksCritical)
    }

    // -------------------------------------------------------------- the parts of UpdateChecks

    /** The copy of a definition that the probe is made from. */
    method FixInterval(d: Definition) returns (definition: Definition)
      ensures definition == Clamped(d, settings.minimumInterval)
    {
      definition := d;
      if definition.interval == 0 {
        definition := definition.(interval := DEFAULT_INTERVAL);
      }
      if definition.interval < settings.minimumInterval {
        definition := definition.(interval := settings.minimumInterval);
      }
    }

    /** UpdateChecks, the probe of one entry. */
    method StartProbe(was: Option<Definition>, checkHash: string, definition: Definition) returns (valid: bool)
      requires InPlace()
      modifies probes.repr
      ensures InPlace() && fresh(probes.repr - old(probes.repr))
      ensures valid <==> KindOf(definition).Some?
      ensures !valid ==> probes.view == old(probes.view) && probes.tidy == old(probes.tidy)
      ensures valid ==>
        var kind := KindOf(definition).value;
        && probes.view == UpdatedMaps(old(probes.view), was, checkHash, definition, ProbeFor(kind, definition))
        && (old(probes.tidy) && RoomFor(old(probes.view), was, checkHash, definition, kind) ==> probes.tidy)
    {
      if definition.http != "" {
        var changed := probes.UpdateCheckHTTP(was, checkHash, definition);
      } else if definition.tcp != "" {
        var changed := probes.UpdateCheckTCP(was, checkHash, definition);
      } else if definition.grpc != "" {
        var changed := probes.UpdateCheckGRPC(was, checkHash, definition);
      } else {
        return false;
      }
      return true;
    }

    /** UpdateChecks, one entry of the list. */
    method ResyncEntry(check: HealthCheck) returns (valid: bool)
      requires InPlace()
      modifies checks.repr, probes.repr
      ensures InPlace() && fresh(probes.repr - old(probes.repr)) && fresh(checks.repr - old(checks.repr))
      ensures old(checks.born) <= checks.born
      ensures valid <==> Runnable(check)
      ensures View() == ResyncOne(old(View()), check, settings.minimumInterval)
      ensures old(probes.tidy) && old(WellKept(View())) ==> probes.tidy
    {
      if check.checkID == EXTERNAL_CHECK_NAME {
        return false;
      }
      var checkHash := HashOf(check);
      var definition := FixInterval(check.definition);
      var was := if checkHash in checks.entries then Some(checks.entries[checkHash].listed.definition) else None;
      ghost var t, m := View(), probes.view;
      valid := StartProbe(was, checkHash, definition);
      ProbeUpdateIsAsTold(t, m, was, checkHash, check.definition, settings.minimumInterval);
      if !valid {
        return;
      }
      checks.Replace(checkHash, check);
    }

    /** UpdateChecks, one removed check. */
    method DropCheck(checkHash: string)
      requires InPlace()
      modifies this`checksCritical, checks.repr, probes.repr
      ensures InPlace() && probes.repr == old(probes.repr) && checks.repr == old(checks.repr)
      ensures checks.born == old(checks.born) && probes.tidy == old(probes.tidy)
      ensures View() == Drop(old(View()), {checkHash})
    {
      DropOfParts(checks.view, probes.view, checksCritical, checkHash);
      checks.Delete(checkHash);
      checksCritical := checksCritical - {checkHash};
      probes.DropProbes(checkHash);
    }

    /** UpdateChecks, the loop that looks for removed checks, in the arbitrary order in which a map is ranged over. */
    method DropUnlisted(found: set<string>)
      requires InPlace()
      modifies this`checksCritical, checks.repr, probes.repr
      ensures InPlace() && probes.repr == old(probes.repr) && checks.repr == old(checks.repr)
      ensures checks.born == old(checks.born) && probes.tidy == old(probes.tidy)
      ensures View() == Drop(old(View()), old(checks.view.Keys) - found)
    {
      ghost var t1 := View();
      var left := checks.entries.Keys - found;
      ghost var gone := {};
      DropNothing(t1);
      while left != {}
        invariant InPlace() && probes.repr == old(probes.repr) && checks.repr == old(checks.repr)
        invariant checks.born == old(checks.born) && probes.tidy == old(probes.tidy)
        invariant View() == Drop(t1, gone)
        invariant gone + left == old(checks.view.Keys) - found
      {
        var h :| h in left;
        DropCheck(h);
        DropOneMore(t1, gone, h);
        left, gone := left - {h}, gone + {h};
      }
      assert gone == old(checks.view.Keys) - found;
    }

    /** UpdateChecks, the loop over the list. */
    method ResyncListed(list: seq<HealthCheck>, ghost orderly: bool) returns (found: set<string>)
      requires InPlace()
      requires orderly ==> probes.tidy && StaysInOrder(View(), list, settings.minimumInterval)
      modifies checks.repr, probes.repr
      ensures InPlace() && fresh(probes.repr - old(probes.repr)) && fresh(checks.repr - old(checks.repr))
      ensures old(checks.born) <= checks.born
      ensures View() == ResyncAll(old(View()), list, settings.minimumInterval) && found == Listed(list)
      ensures orderly ==> probes.tidy
    {
      ghost var t0, min := View(), settings.minimumInterval;
      found := {};
      for i := 0 to |list|
        invariant InPlace() && fresh(probes.repr - old(probes.repr)) && fresh(checks.repr - old(checks.repr))
        invariant old(checks.born) <= checks.born
        invariant View() == ResyncAll(t0, list[..i], min) && found == Listed(list[..i])
        invariant orderly ==> probes.tidy
      {
        NextEntry(t0, list, i, min);
        var valid := ResyncEntry(list[i]);
        if valid {
          found := found + {HashOf(list[i])};
        }
      }
      assert list[..|list|] == list;
    }

    /** UpdateChecks, as far as its own maps are concerned. */
    method ResyncMaps(list: seq<HealthCheck>)
      requires InPlace()
      modifies this`checksCritical, checks.repr, probes.repr
      ensures InPlace() && fresh(probes.repr - old(probes.repr)) && fresh(checks.repr - old(checks.repr))
      ensures old(checks.born) <= checks.born
      ensures View() == Resynced(old(View()), list, settings.minimumInterval)
      ensures old(probes.tidy) && old(WellKept(View())) && (forall c | c in list :: SingleKind(c.definition)) ==>
        probes.tidy && WellKept(View()) && probes.LiveProbesAreMapped()
    {
      ghost var t0 := View();
      ghost var orderly := probes.tidy && WellKept(t0) && forall c | c in list :: SingleKind(c.definition);
      if orderly {
        SingleKindsStayInOrder(t0, list, settings.minimumInterval);
      }
      var found := ResyncListed(list, orderly);
      DropUnlisted(found);
      if orderly {
        ResyncKeepsOrder(t0, list, settings.minimumInterval);
        probes.OrderMeansLive(View());
      }
    }

    // -------------------------------------------------------------- writing to the catalog

    /** The server and the local states, as values. */
    ghost function Now(): Side
      reads client, checks
    {
      Side(Server(client.world, client.script), checks.view)
    }

    ghost predicate Ready()
      reads client, checks, checks.repr
    {
      checks.Valid() && client !in checks.repr && this !in checks.repr && Good(client.world)
    }

    /** Read the node's checks; if this one is there, send its edited copy as a compare-and-set. */
    method PushCheck(u: Update) returns (p: Push)
      requires Good(client.world)
      modifies client
      ensures Good(client.world) && OnlyEdits(old(client.world), client.world)
      ensures (Server(client.world, client.script), p) == PushOne(old(Server(client.world, client.script)), u)
    {
      PushEdits(Server(client.world, client.script), u);
      var found := client.Fetch(ChecksOf(u.node));
      if found == None {
        return Unreadable;
      }
      if Target(u) !in found.value {
        return Gone;
      }
      var existing := found.value[Target(u)];
      OpIsFromRead(client.world.trace, u, existing, |client.world.trace| - 1);
      var reply := client.Txn([OpFor(u, existing)], 0);
      p := Sent(reply);
    }

    /** revertCheckState. `holding` is the check whose lock the caller has: locking it again never returns. */
    method RevertCheckState(u: Update, holding: Option<string>) returns (blocked: bool)
      requires checks.Valid()
      modifies checks.repr
      ensures checks.Valid() && checks.Objects() == old(checks.Objects())
      ensures SameButState(old(checks.view), checks.view)
      ensures blocked <==> holding == Some(u.hash) && u.hash in old(checks.view)
      ensures checks.view == if blocked then old(checks.view) else Revert(old(checks.view), u)
    {
      if u.hash !in checks.entries {
        return false;
      }
      if holding == Some(u.hash) {
        return true;
      }
      var check := checks.entries[u.hash];
      checks.Write(check, check.local.(status := u.oldStatus, output := u.oldOutput));
      return false;
    }

    /** revertAllUpdates. */
    method RevertAllUpdates(us: seq<Update>, holding: Option<string>) returns (blocked: bool)
      requires checks.Valid()
      modifies checks.repr
      ensures checks.Valid() && checks.Objects() == old(checks.Objects())
      ensures SameButState(old(checks.view), checks.view)
      ensures blocked <==> holding.Some? && NeedsLock(old(checks.view), us, holding.value)
      ensures !blocked ==> checks.view == RevertAll(old(checks.view), us)
    {
      ghost var v := checks.view;
      for i := 0 to |us|
        invariant checks.Valid() && checks.Objects() == old(checks.Objects())
        invariant SameButState(old(checks.view), checks.view)
        invariant checks.view == RevertAll(v, us[..i])
        invariant holding.Some? ==> !NeedsLock(v, us[..i], holding.value)
      {
        assert us[..i + 1][..i] == us[..i];
        if !NeedsRevert(us[i]) {
          continue;
        }
        blocked := RevertCheckState(us[i], holding);
        if blocked {
          return;
        }
      }
      assert us[..|us|] == us;
      return false;
    }

    /** retryFailedBatchOperations, one update: read again and send alone; revert if the answer has errors. */
    method RetryUpdate(u: Update, holding: Option<string>) returns (blocked: bool)
      requires Ready()
      modifies client, checks.repr
      ensures Ready() && checks.Objects() == old(checks.Objects()) && OnlyEdits(old(client.world), client.world)
      ensures SameButState(old(checks.view), checks.view)
      ensures blocked <==>
        holding == Some(u.hash) && u.hash in old(checks.view) && Rejected(PushOne(old(Now()).server, u).1)
      ensures !blocked ==> Now() == RetryOne(old(Now()), u)
    {
      var p := PushCheck(u);
      if Rejected(p) {
        blocked := RevertCheckState(u, holding);
      } else {
        blocked := false;
      }
    }

    /** The next position; one beyond the batch is passed over. */
    method RetryNext(us: seq<Update>, idx: nat, holding: Option<string>, ghost x: Side, ghost order: seq<nat>)
      returns (blocked: bool)
      requires Ready() && Now() == RetryAll(x, us, order) && x.locals.Keys == checks.view.Keys
      requires holding.Some? ==> !RetryNeedsLock(x, us, order, holding.value)
      modifies client, checks.repr
      ensures Ready() && checks.Objects() == old(checks.Objects()) && OnlyEdits(old(client.world), client.world)
      ensures SameButState(old(checks.view), checks.view)
      ensures blocked <==> holding.Some? && RetryNeedsLock(x, us, order + [idx], holding.value)
      ensures !blocked ==> Now() == RetryAll(x, us, order + [idx])
    {
      OneMoreRetry(x, us, order, idx);
      blocked := false;
      if idx < |us| {
        blocked := RetryUpdate(us[idx], holding);
      }
    }

    /** retryFailedBatchOperations: the positions named by stale-index errors, in the arbitrary order in which a map is
        ranged over. */
    method RetryFailedBatchOperations(us: seq<Update>, errors: seq<TxnError>, holding: Option<string>)
      returns (blocked: bool, ghost order: seq<nat>)
      requires Ready()
      modifies client, checks.repr
      ensures Ready() && checks.Objects() == old(checks.Objects()) && OnlyEdits(old(client.world), client.world)
      ensures SameButState(old(checks.view), checks.view)
      ensures blocked <==> holding.Some? && RetryNeedsLock(old(Now()), us, order, holding.value)
      ensures !blocked ==> IsOrder(order, StaleIndices(errors)) && Now() == RetryAll(old(Now()), us, order)
    {
      ghost var x := Now();
      var left := StaleIndices(errors);
      order := [];
      while left != {}
        invariant Ready() && checks.Objects() == old(checks.Objects()) && OnlyEdits(old(client.world), client.world)
        invariant SameButState(old(checks.view), checks.view)
        invariant Now() == RetryAll(x, us, order)
        invariant IsOrder(order, StaleIndices(errors) - left) && left <= StaleIndices(errors)
        invariant holding.Some? ==> !RetryNeedsLock(x, us, order, holding.value)
      {
        var idx :| idx in left;
        OrderGrows(order, idx, StaleIndices(errors) - left);
        assert StaleIndices(errors) - (left - {idx}) == StaleIndices(errors) - left + {idx};
        ghost var w := client.world;
        blocked := RetryNext(us, idx, holding, x, order);
        EditsCompose(old(client.world), w, client.world);
        left, order := left - {idx}, order + [idx];
        if blocked {
          return;
        }
      }
      return false, order;
    }

    /** executeBatchTransaction. */
    method ExecuteBatchTransaction(ops: seq<Op>, us: seq<Update>, ghost fetched: Fetched, holding: Option<string>)
      returns (blocked: bool, ghost order: seq<nat>, ghost reply: Reply)
      requires Ready() && AllExist(us, fetched) && ops == OpsFor(us, fetched)
      requires WasRead(client.world.trace, fetched)
      modifies client, checks.repr
      ensures Ready() && checks.Objects() == old(checks.Objects()) && OnlyEdits(old(client.world), client.world)
      ensures SameButState(old(checks.view), checks.view)
      ensures blocked <==> holding.Some? && ExecuteNeedsLock(old(Now()), us, fetched, order, holding.value)
      ensures !blocked ==>
        && (Now(), reply) == Execute(old(Now()), us, fetched, order)
        && (FailsStale(reply) ==> IsOrder(order, StaleIndices(reply.errors)))
        && (FailedPlainly(reply) && SeparateHashes(us) ==> forall u | u in us :: IsReverted(checks.view, u))
    {
      OpsAreFromReads(client.world.trace, us, fetched);
      ghost var x := Now();
      SubmitEdits(Server(client.world, client.script), ops, 0);
      var answer := client.Txn(ops, 0);
      ghost var w := client.world;
      reply, order := answer, [];
      if answer.TransportError? {
        blocked := RevertAllUpdates(us, holding);
      } else if answer.errors != [] {
        if exists e | e in answer.errors :: e.stale {
          blocked, order := RetryFailedBatchOperations(us, answer.errors, holding);
          EditsCompose(old(client.world), w, client.world);
        } else {
          blocked := RevertAllUpdates(us, holding);
        }
      } else if !answer.ok {
        blocked := RevertAllUpdates(us, holding);
      } else {
        blocked := false;
      }
      FailedIsReverted(x, us, fetched, order);
    }

    /** processBatchedUpdates, the fetches. */
    method FetchNodes(us: seq<Update>) returns (fetched: Fetched, failed: set<string>)
      requires Good(client.world)
      modifies client
      ensures Good(client.world) && WasRead(client.world.trace, fetched)
      ensures Gathered(Server(client.world, client.script), fetched, failed)
              == Gather(old(Server(client.world, client.script)), us)
      ensures OnlyEdits(old(client.world), client.world)
    {
      ghost var s := Server(client.world, client.script);
      GatherEdits(s, us);
      fetched, failed := map[], {};
      for i := 0 to |us|
        invariant Good(client.world) && WasRead(client.world.trace, fetched)
        invariant Gathered(Server(client.world, client.script), fetched, failed) == Gather(s, us[..i])
      {
        assert us[..i + 1][..i] == us[..i];
        var node := us[i].node;
        if node in fetched {
          continue;
        }
        ghost var before := client.world.trace;
        var found := client.Fetch(ChecksOf(node));
        WasReadLasts(before, client.world.trace, fetched);
        if found == None {
          failed := failed + {node};
          continue;
        }
        fetched := fetched[node := found.value];
      }
      assert us[..|us|] == us;
    }

    /** processBatchedUpdates, the reverts of what could not be fetched. */
    method RevertFailed(us: seq<Update>, failed: set<string>, holding: Option<string>) returns (blocked: bool)
      requires checks.Valid()
      modifies checks.repr
      ensures checks.Valid() && checks.Objects() == old(checks.Objects())
      ensures SameButState(old(checks.view), checks.view)
      ensures blocked <==> holding.Some? && NeedsLock(old(checks.view), Failing(us, failed), holding.value)
      ensures !blocked ==> checks.view == RevertAll(old(checks.view), Failing(us, failed))
    {
      ghost var v := checks.view;
      FailingMeans(us, failed);
      for i := 0 to |us|
        invariant checks.Valid() && checks.Objects() == old(checks.Objects())
        invariant SameButState(old(checks.view), checks.view)
        invariant checks.view == RevertAll(v, Failing(us[..i], failed))
        invariant holding.Some? ==> !NeedsLock(v, Failing(us[..i], failed), holding.value)
      {
        assert us[..i + 1][..i] == us[..i];
        FailingGrows(v, us[..i + 1], failed);
        if us[i].node in failed && (us[i].oldStatus != "" || us[i].oldOutput != "") {
          blocked := RevertCheckState(us[i], holding);
          if blocked {
            return;
          }
        }
      }
      assert us[..|us|] == us;
      return false;
    }

    /** processBatchedUpdates, the transactions. */
    method SendKept(us: seq<Update>, fetched: Fetched, holding: Option<string>)
      returns (blocked: bool, ghost orders: seq<seq<nat>>, ghost replies: seq<Reply>)
      requires Ready() && WasRead(client.world.trace, fetched)
      modifies client, checks.repr
      ensures Ready() && checks.Objects() == old(checks.Objects())
      ensures SameButState(old(checks.view), checks.view)
      ensures AllChunksExist(Chunks(Kept(us, fetched)), fetched)
      ensures blocked <==>
        holding.Some? && SendNeedsLock(old(Now()), Chunks(Kept(us, fetched)), fetched, orders, holding.value)
      ensures !blocked ==> (Now(), replies) == SendAll(old(Now()), Chunks(Kept(us, fetched)), fetched, orders)
      ensures OnlyEdits(old(client.world), client.world)
    {
      KeptChunksExist(us, fetched);
      var ops, processed;
      ghost var n, sent;
      blocked, ops, processed, n, sent, orders, replies := SendFull(us, fetched, holding);
      if blocked {
        StopsEarly(old(Now()), us, fetched, n, sent, orders, holding.value);
      } else {
        assert us[..n] == us;
        if |ops| > 0 {
          blocked, sent, orders, replies :=
            SendOne(ops, processed, old(Now()), sent, fetched, orders, replies, holding);
        }
        assert sent == Chunks(Kept(us, fetched));
      }
    }

    /** The loop that fills the transactions and sends each full one. The rest is left for a last one. */
    method SendFull(us: seq<Update>, fetched: Fetched, holding: Option<string>)
      returns (blocked: bool, ops: seq<Op>, processed: seq<Update>,
               ghost n: nat, ghost sent: seq<seq<Update>>, ghost orders: seq<seq<nat>>, ghost replies: seq<Reply>)
      requires Ready() && WasRead(client.world.trace, fetched)
      modifies client, checks.repr
      ensures Ready() && checks.Objects() == old(checks.Objects()) && WasRead(client.world.trace, fetched)
      ensures SameButState(old(checks.view), checks.view)
      ensures n <= |us| && Filling(us[..n], fetched, sent, processed) && ops == OpsFor(processed, fetched)
      ensures |orders| == |sent|
      ensures blocked ==>
        processed == [] && holding.Some? && SendNeedsLock(old(Now()), sent, fetched, orders, holding.value)
      ensures !blocked ==>
        && n == |us| && (Now(), replies) == SendAll(old(Now()), sent, fetched, orders)
        && (holding.Some? ==> !SendNeedsLock(old(Now()), sent, fetched, orders, holding.value))
      ensures OnlyEdits(old(client.world), client.world)
    {
      ghost var x := Now();
      ops, processed, sent, orders, replies, n := [], [], [], [], [], 0;
      for i := 0 to |us|
        invariant n == i
        invariant Ready() && checks.Objects() == old(checks.Objects()) && WasRead(client.world.trace, fetched)
        invariant SameButState(old(checks.view), checks.view) && OnlyEdits(x.server.world, client.world)
        invariant Filling(us[..n], fetched, sent, processed) && ops == OpsFor(processed, fetched)
        invariant |orders| == |sent| && (Now(), replies) == SendAll(x, sent, fetched, orders)
        invariant holding.Some? ==> !SendNeedsLock(x, sent, fetched, orders, holding.value)
      {
        FillMore(us, i, fetched, sent, processed);
        n := i + 1;
        if Exists(us[i], fetched) {
          ops := ops + [OpFor(us[i], fetched[us[i].node][Target(us[i])])];
          processed := processed + [us[i]];
          if |ops| >= MAX_TXN_OPS {
            blocked, sent, orders, replies := SendOne(ops, processed, x, sent, fetched, orders, replies, holding);
            ops, processed := [], [];
            if blocked {
              return;
            }
          }
        }
      }
      blocked := false;
    }

    /** One of these transactions, with the account of those already sent. */
    method SendOne(ops: seq<Op>, us: seq<Update>, ghost x: Side, ghost sent: seq<seq<Update>>, ghost fetched: Fetched,
                   ghost orders: seq<seq<nat>>, ghost replies: seq<Reply>, holding: Option<string>)
      returns (blocked: bool, ghost sent': seq<seq<Update>>, ghost orders': seq<seq<nat>>, ghost replies': seq<Reply>)
      requires Ready() && WasRead(client.world.trace, fetched)
      requires AllExist(us, fetched) && ops == OpsFor(us, fetched)
      requires AllChunksExist(sent, fetched) && |orders| == |sent|
      requires (Now(), replies) == SendAll(x, sent, fetched, orders)
      requires OnlyEdits(x.server.world, client.world)
      requires holding.Some? ==> !SendNeedsLock(x, sent, fetched, orders, holding.value)
      modifies client, checks.repr
      ensures Ready() && checks.Objects() == old(checks.Objects()) && WasRead(client.world.trace, fetched)
      ensures SameButState(old(checks.view), checks.view)
      ensures sent' == sent + [us] && |orders'| == |sent'| && AllChunksExist(sent', fetched)
      ensures blocked <==> holding.Some? && SendNeedsLock(x, sent', fetched, orders', holding.value)
      ensures !blocked ==> (Now(), replies') == SendAll(x, sent', fetched, orders')
      ensures OnlyEdits(x.server.world, client.world)
    {
      ghost var w := client.world;
      ghost var order, reply;
      blocked, order, reply := ExecuteBatchTransaction(ops, us, fetched, holding);
      sent', orders', replies' := sent + [us], orders + [order], replies + [reply];
      SendSnoc(x, sent, us, fetched, orders, order);
      WasReadLasts(w.trace, client.world.trace, fetched);
      EditsCompose(x.server.world, w, client.world);
    }

    /** processBatchedUpdates. */
    method ProcessBatchedUpdates(us: seq<Update>, holding: Option<string>)
      returns (blocked: bool, ghost orders: seq<seq<nat>>, ghost replies: seq<Reply>)
      requires Ready()
      modifies client, checks.repr
      ensures Ready() && checks.Objects() == old(checks.Objects())
      ensures SameButState(old(checks.view), checks.view)
      ensures blocked <==> holding.Some? && ProcessNeedsLock(old(Now()), us, orders, holding.value)
      ensures !blocked ==> (Now(), replies) == Process(old(Now()), us, orders)
      ensures OnlyEdits(old(client.world), client.world)
    {
      orders, replies := [], [];
      if |us| == 0 {
        return false, [], [];
      }
      var fetched, failed := FetchNodes(us);
      ghost var w := client.world;
      blocked := RevertFailed(us, failed, holding);
      if !blocked {
        blocked, orders, replies := SendKept(us, fetched, holding);
        EditsCompose(old(client.world), w, client.world);
      }
    }

    // -------------------------------------------------------------- results of checks

    ghost function State(): RunnerState
      reads this, client, checks, batcher
    {
      RunnerState(Now(), QueueNow(), checksCritical)
    }

    /** The invariant of all that results, timers and resyncs do to the tracked checks and the catalog. The probes, of
        which they touch nothing, have their own (InPlace). */
    ghost predicate Valid()
      reads this, client, checks, checks.repr, batcher
    {
      && Ready() && BatcherReady() && Orderly(settings, State())
      && forall h | h in deferCheck :: deferCheck[h].check in checks.born
    }

    /** The queue as a value. */
    ghost function QueueNow(): Queue
      reads this, batcher
    {
      if batcher == null then Immediate else Queued(batcher.pendingUpdates)
    }

    ghost predicate BatcherReady()
      reads this, checks, batcher
    {
      batcher != null ==>
        batcher.Valid() && batcher !in checks.repr && batcher.maxBatchSize == MAX_TXN_OPS && settings.agentless
    }

    /** handleCheckUpdateImmediate: the local state follows only if the push is known to have succeeded. */
    method HandleCheckUpdateImmediate(check: EsmHealthCheck, u: Update)
      requires Ready() && check in checks.born && u.hash == check.hash
      modifies client, checks.repr
      ensures Ready() && checks.Objects() == old(checks.Objects())
      ensures SameButState(old(checks.view), checks.view)
      ensures Now() == PushAndFollow(old(Now()), u, old(checks.IsCurrent(check)))
      ensures OnlyEdits(old(client.world), client.world)
    {
      var p := PushCheck(u);
      if Took(p) {
        checks.Write(check, check.local.(status := u.status, output := u.output));
      }
    }

    /** A full batch is processed by the one who filled it, who may be holding the lock of a check. */
    method Enqueue(u: Update, holding: Option<string>)
      returns (blocked: bool, ghost batch: seq<Update>, ghost orders: seq<seq<nat>>)
      requires Ready() && BatcherReady() && batcher != null
      modifies client, checks.repr, batcher
      ensures Ready() && BatcherReady() && checks.Objects() == old(checks.Objects())
      ensures SameButState(old(checks.view), checks.view)
      ensures var more := old(batcher.pendingUpdates)[u.key := u];
        if |more| < MAX_TXN_OPS then
          !blocked && batch == [] && batcher.pendingUpdates == more && Now() == old(Now())
        else
          && Enumerates(batch, more) && batcher.pendingUpdates == map[]
          && (blocked <==> holding.Some? && ProcessNeedsLock(old(Now()), batch, orders, holding.value))
          && (!blocked ==> Now() == Process(old(Now()), batch, orders).0)
      ensures OnlyEdits(old(client.world), client.world)
    {
      blocked, batch, orders := false, [], [];
      var full := batcher.Add(u);
      batch := full;
      if |full| > 0 {
        ghost var replies;
        blocked, orders, replies := ProcessBatchedUpdates(full, holding);
      }
    }

    /** handleCheckUpdate: into the batcher, if there is one. */
    method HandleCheckUpdate(check: EsmHealthCheck, u: Update, holding: Option<string>)
      returns (blocked: bool, ghost batch: seq<Update>, ghost orders: seq<seq<nat>>)
      requires Ready() && BatcherReady() && check in checks.born && u.hash == check.hash
      modifies client, checks.repr, batcher
      ensures Ready() && BatcherReady() && checks.Objects() == old(checks.Objects())
      ensures Handled(old(Now()), old(QueueNow()), u, old(checks.IsCurrent(check)), holding,
                      Now(), QueueNow(), blocked, batch, orders)
      ensures OnlyEdits(old(client.world), client.world)
    {
      blocked, batch, orders := false, [], [];
      if batcher != null {
        blocked, batch, orders := Enqueue(u, holding);
      } else {
        HandleCheckUpdateImmediate(check, u);
      }
    }

    /** UpdateCheck, up to the verdict: the counters of the check move, and its critical time is kept. */
    method JudgeResult(h: string, before: Local, status: string, output: string, now: int)
      returns (accepted: bool, l: Local)
      modifies this`checksCritical
      ensures var v := Judge(settings.thresholds, before, status, output);
        && (accepted <==> v == Accepted)
        && l == Count(settings.thresholds, before, status, output)
        && checksCritical
           == Recorded(old(checksCritical), h, TrackCritical(Get(old(checksCritical), h), v, status, now))
    {
      l, accepted := before, false;
      RecordedAsIs(checksCritical, h);
      if l.status == status && l.output == output {
        if status == CRITICAL {
          NoteCritical(h, now);
        }
        l := l.(fails := DecrementCounter(l.fails), succs := DecrementCounter(l.succs));
      } else if status == CRITICAL {
        if l.fails < settings.thresholds.critical {
          l := l.(fails := l.fails + 1);
        } else {
          l, accepted := l.(fails := 0), true;
          NoteCritical(h, now);
        }
      } else {
        if l.succs < settings.thresholds.passing {
          l := l.(succs := l.succs + 1);
        } else {
          l, accepted := l.(succs := 0), true;
          checksCritical := Recorded(checksCritical, h, None);
        }
      }
    }

    /** UpdateCheck, a result that is merely counted. */
    method KeepCounters(check: EsmHealthCheck, l: Local)
      requires Ready() && BatcherReady() && checks.IsCurrent(check)
      modifies checks.repr
      ensures Ready() && BatcherReady() && checks.Objects() == old(checks.Objects()) && QueueNow() == old(QueueNow())
      ensures Now() == old(Now()).(locals := PutLocal(old(checks.view), check.hash, l))
    {
      checks.Write(check, l);
    }

    /** UpdateCheck, a new output for the old status: it is kept locally and written back later. */
    method DeferOutput(check: EsmHealthCheck, l: Local, status: string, output: string)
      requires checks.Valid() && this !in checks.repr && checks.IsCurrent(check)
      modifies this`deferCheck, checks.repr
      ensures checks.Valid() && checks.Objects() == old(checks.Objects())
      ensures checks.view == PutLocal(old(checks.view), check.hash, l.(output := output))
      ensures deferCheck == if check.hash in old(deferCheck) then old(deferCheck)
                            else old(deferCheck)[check.hash := DeferredSync(check, status, output)]
    {
      checks.Write(check, l.(output := output));
      if check.hash !in deferCheck {
        deferCheck := deferCheck[check.hash := DeferredSync(check, status, output)];
      }
    }

    /** UpdateCheck, the push. Without agents the local state is ahead of the catalog from here on. The lock of the
        check is held throughout. */
    method SyncResult(check: EsmHealthCheck, l: Local, status: string, output: string)
      returns (blocked: bool, ghost batch: seq<Update>, ghost orders: seq<seq<nat>>)
      requires Ready() && BatcherReady() && checks.IsCurrent(check)
      modifies client, checks.repr, batcher
      ensures Ready() && BatcherReady() && checks.Objects() == old(checks.Objects())
      ensures var h := check.hash;
              var l' := if settings.agentless then l.(status := status, output := output) else l;
              var v := PutLocal(old(checks.view), h, l');
        && Handled(old(Now()).(locals := v), old(QueueNow()), UpdateOf(old(checks.view)[h].hc, status, output, l), true,
                   Some(h), Now(), QueueNow(), blocked, batch, orders)
      ensures OnlyEdits(old(client.world), client.world)
    {
      checks.Write(check, if settings.agentless then l.(status := status, output := output) else l);
      blocked, batch, orders := HandleCheckUpdate(check, UpdateOf(check.listed, status, output, l), Some(check.hash));
    }

    /** UpdateCheck, after an accepted result. */
    method PushResult(check: EsmHealthCheck, l: Local, status: string, output: string)
      returns (blocked: bool, ghost batch: seq<Update>, ghost orders: seq<seq<nat>>)
      requires Ready() && BatcherReady() && checks.IsCurrent(check)
      modifies this`deferCheck, client, checks.repr, batcher
      ensures Ready() && BatcherReady() && checks.Objects() == old(checks.Objects())
      ensures Pushed(settings, check.hash, l, status, output, old(Now()), old(QueueNow()), Now(), QueueNow(),
                     blocked, batch, orders)
      ensures deferCheck ==
        if settings.checkUpdateInterval > 0 && l.status == status && check.hash !in old(deferCheck)
        then old(deferCheck)[check.hash := DeferredSync(check, status, output)] else old(deferCheck)
      ensures OnlyEdits(old(client.world), client.world)
    {
      blocked, batch, orders := false, [], [];
      if settings.checkUpdateInterval > 0 && l.status == status {
        DeferOutput(check, l, status, output);
      } else {
        blocked, batch, orders := SyncResult(check, l, status, output);
      }
    }

    /** UpdateCheck, for a tracked check. */
    method HandleResult(check: EsmHealthCheck, status: string, output: string, now: int)
      returns (blocked: bool, ghost batch: seq<Update>, ghost orders: seq<seq<nat>>)
      requires Ready() && BatcherReady() && checks.IsCurrent(check)
      modifies this`checksCritical, this`deferCheck, client, checks.repr, batcher
      ensures Ready() && BatcherReady() && checks.Objects() == old(checks.Objects())
      ensures var h, l0 := check.hash, LocalOf(old(checks.view)[check.hash]);
              var v := Judge(settings.thresholds, l0, status, output);
              var l := Count(settings.thresholds, l0, status, output);
        && checksCritical
           == Recorded(old(checksCritical), h, TrackCritical(Get(old(checksCritical), h), v, status, now))
        && (v != Accepted ==>
              && !blocked && QueueNow() == old(QueueNow())
              && Now() == old(Now()).(locals := PutLocal(old(checks.view), h, l)))
        && (v == Accepted ==>
              Pushed(settings, h, l, status, output, old(Now()), old(QueueNow()), Now(), QueueNow(),
                     blocked, batch, orders))
      ensures deferCheck ==
        if Defers(settings, old(check.local), status, output) && check.hash !in old(deferCheck)
        then old(deferCheck)[check.hash := DeferredSync(check, status, output)] else old(deferCheck)
      ensures OnlyEdits(old(client.world), client.world)
    {
      blocked, batch, orders := false, [], [];
      var accepted, l := JudgeResult(check.hash, check.local, status, output, now);
      if !accepted {
        KeepCounters(check, l);
      } else {
        blocked, batch, orders := PushResult(check, l, status, output);
      }
    }

    /** UpdateCheck: a result comes in. `blocked` means that the call never returns, because it waits for the lock it
        holds itself. */
    method UpdateCheck(h: string, status: string, output: string, now: int)
      returns (blocked: bool, ghost batch: seq<Update>, ghost orders: seq<seq<nat>>)
      requires Valid()
      modifies this`checksCritical, this`deferCheck, client, checks.repr, batcher
      ensures Valid() && checks.Objects() == old(checks.Objects())
      ensures Resulted(settings, h, status, output, now, old(State()), State(), blocked, batch, orders)
      ensures var v := old(checks.view);
        h in v && (status, output) == (v[h].hc.status, v[h].hc.output) ==>
          TookBack(v, checks.view, h) && Now().server == old(Now()).server
      ensures deferCheck ==
        if && h in old(checks.entries) && h !in old(deferCheck)
           && Defers(settings, old(checks.entries[h].local), status, output)
        then old(deferCheck)[h := DeferredSync(old(checks.entries)[h], status, output)] else old(deferCheck)
      ensures OnlyEdits(old(client.world), client.world)
    {
      blocked, batch, orders := false, [], [];
      if h in checks.entries {
        ghost var s := State();
        blocked, batch, orders := HandleResult(checks.entries[h], status, output, now);
        ResultsKeepOrder(settings, h, status, output, now, s, State(), blocked, batch, orders);
        NoNewsTakesBack(settings, h, status, output, now, s, State(), blocked, batch, orders);
      }
    }

    /** The time is written once. */
    method NoteCritical(h: string, now: int)
      modifies this`checksCritical
      ensures checksCritical
              == Recorded(old(checksCritical), h,
                          Some(if h in old(checksCritical) then old(checksCritical)[h] else now))
    {
      if h !in checksCritical {
        checksCritical := checksCritical[h := now];
      }
    }

    // -------------------------------------------------------------- UpdateChecks

    /** UpdateChecks. The maps end up as `Resynced` says; and if the probes were in order and the definitions are of a
        single kind each, then the live probes are afterwards exactly those in the maps. */
    method UpdateChecks(list: seq<HealthCheck>)
      requires InPlace() && Valid()
      modifies this`checksCritical, checks.repr, probes.repr
      ensures InPlace() && fresh(probes.repr - old(probes.repr)) && fresh(checks.repr - old(checks.repr))
      ensures Valid() && old(checks.born) <= checks.born
      ensures View() == Resynced(old(View()), list, settings.minimumInterval)
      ensures Now().server == old(Now().server) && QueueNow() == old(QueueNow())
      ensures old(probes.tidy) && old(WellKept(View())) && (forall c | c in list :: SingleKind(c.definition)) ==>
        probes.tidy && WellKept(View()) && probes.LiveProbesAreMapped()
    {
      ResyncMaps(list);
      ResyncKeepsValid(list);
    }

    twostate lemma ResyncKeepsValid(list: seq<HealthCheck>)
      requires old(Valid()) && InPlace() && old(checks.born) <= checks.born
      requires View() == Resynced(old(View()), list, settings.minimumInterval)
      requires unchanged(client) && unchanged(`batcher) && unchanged(`deferCheck)
      requires batcher != null ==> unchanged(batcher)
      ensures Valid() && Now().server == old(Now().server) && QueueNow() == old(QueueNow())
    {
      ResyncStaysInBounds(old(View()), list, settings.minimumInterval, settings.thresholds);
    }

    // -------------------------------------------------------------- timers and shutdown

    /** A deferred output is written back: the values it was set up with, through the check object it was set up for,
        whatever has become of both; and no lock is held. */
    method WriteBack(h: string) returns (ghost batch: seq<Update>, ghost orders: seq<seq<nat>>)
      requires Ready() && BatcherReady() && h in deferCheck && deferCheck[h].check in checks.born
      modifies this`deferCheck, client, checks.repr, batcher
      ensures Ready() && BatcherReady() && checks.Objects() == old(checks.Objects())
      ensures deferCheck == old(deferCheck) - {h}
      ensures var d := old(deferCheck)[h];
        Handled(old(Now()), old(QueueNow()), DeferredUpdate(d), old(checks.IsCurrent(d.check)), None,
                Now(), QueueNow(), false, batch, orders)
      ensures Orderly(settings, old(State())) ==> Orderly(settings, State())
      ensures OnlyEdits(old(client.world), client.world)
    {
      var d := deferCheck[h];
      ghost var s, current := State(), checks.IsCurrent(d.check);
      var blocked;
      blocked, batch, orders := HandleCheckUpdate(d.check, DeferredUpdate(d), None);
      deferCheck := deferCheck - {h};
      if Orderly(settings, s) {
        HandlingKeepsOrder(settings, s.side, s.queue, s.critical, DeferredUpdate(d), current, None,
                           Now(), QueueNow(), false, batch, orders);
      }
    }

    /** The timer of a deferred output goes off. */
    method FireDeferred(h: string) returns (ghost batch: seq<Update>, ghost orders: seq<seq<nat>>)
      requires Valid() && h in deferCheck
      modifies this`deferCheck, client, checks.repr, batcher
      ensures Valid() && checks.Objects() == old(checks.Objects()) && deferCheck == old(deferCheck) - {h}
      ensures var d := old(deferCheck)[h];
        Handled(old(Now()), old(QueueNow()), DeferredUpdate(d), old(checks.IsCurrent(d.check)), None,
                Now(), QueueNow(), false, batch, orders)
      ensures OnlyEdits(old(client.world), client.world)
    {
      batch, orders := WriteBack(h);
    }

    /** Everything pending is processed. */
    method FlushQueue() returns (ghost batch: seq<Update>, ghost orders: seq<seq<nat>>)
      requires Ready() && BatcherReady() && batcher != null
      modifies client, checks.repr, batcher
      ensures Ready() && BatcherReady() && checks.Objects() == old(checks.Objects())
      ensures SameButState(old(checks.view), checks.view)
      ensures batcher.pendingUpdates == map[] && Enumerates(batch, old(batcher.pendingUpdates))
      ensures batch == [] <==> old(batcher.pendingUpdates) == map[]
      ensures Now() == Process(old(Now()), batch, orders).0
      ensures OnlyEdits(old(client.world), client.world)
    {
      var updates := batcher.Flush();
      batch := updates;
      var blocked;
      ghost var replies;
      blocked, orders, replies := ProcessBatchedUpdates(updates, None);
    }

    /** The flush timer goes off. */
    method FlushPending() returns (ghost batch: seq<Update>, ghost orders: seq<seq<nat>>)
      requires Valid() && batcher != null
      modifies client, checks.repr, batcher
      ensures Valid() && checks.Objects() == old(checks.Objects())
      ensures batcher.pendingUpdates == map[] && Enumerates(batch, old(batcher.pendingUpdates))
      ensures batch == [] <==> old(batcher.pendingUpdates) == map[]
      ensures Now() == Process(old(Now()), batch, orders).0 && SameButState(old(checks.view), checks.view)
      ensures OnlyEdits(old(client.world), client.world)
    {
      ghost var s := State();
      batch, orders := FlushQueue();
      FlushKeepsOrder(settings, s, State());
    }

    /** Stop, the batcher: a last flush, and then there is no batcher any more. Results still under way after that
        find none and go to the catalog at once. */
    method StopBatcher() returns (ghost batch: seq<Update>, ghost orders: seq<seq<nat>>)
      requires Valid()
      modifies this`batcher, client, checks.repr, batcher
      ensures Valid() && checks.Objects() == old(checks.Objects()) && batcher == null
      ensures SameButState(old(checks.view), checks.view)
      ensures match old(QueueNow())
        case Immediate => batch == [] && Now() == old(Now())
        case Queued(pending) => Enumerates(batch, pending) && Now() == Process(old(Now()), batch, orders).0
      ensures OnlyEdits(old(client.world), client.world)
    {
      batch, orders := [], [];
      if batcher != null {
        batch, orders := FlushPending();
        label Flushed:
        batcher := null;
        DroppingKeepsValid@Flushed();
      }
    }

    twostate lemma DroppingKeepsValid()
      requires old(Valid()) && batcher == null
      requires unchanged(client) && unchanged(checks) && (forall o | o in checks.repr :: unchanged(o))
      requires unchanged(`checksCritical) && unchanged(`deferCheck)
      ensures Valid() && Now() == old(Now())
    {
      FlushKeepsOrder(settings, old(State()), State());
    }

    /** Stop: after the batcher, every probe stops. */
    method Stop() returns (ghost batch: seq<Update>, ghost orders: seq<seq<nat>>)
      requires InPlace() && Valid()
      modifies this`batcher, client, checks.repr, batcher, probes.repr
      ensures InPlace() && checks.Objects() == old(checks.Objects()) && batcher == null
      ensures match old(QueueNow())
        case Immediate => batch == [] && Now() == old(Now())
        case Queued(pending) => Enumerates(batch, pending) && Now() == Process(old(Now()), batch, orders).0
      ensures AllStopped(probes.view.http) && AllStopped(probes.view.tcp) && AllStopped(probes.view.grpc)
      ensures probes.tidy == old(probes.tidy)
      ensures OnlyEdits(old(client.world), client.world)
    {
      batch, orders := StopBatcher();
      probes.StopAll();
    }

    // -------------------------------------------------------------- reaping services

    /** reapServicesInternal, in the arbitrary order in which a map is ranged over. The i-th look at the clock reads
        clock(i), and the i-th deregistration is answered by answers(i). */
    method ReapServicesInternal(clock: nat -> int, answers: nat -> bool) returns (attempts: seq<Attempt>)
      requires checks.Valid()
      ensures AllDue(checks.view, checksCritical, attempts) && OneSuccessEach(attempts)
      ensures forall h | AlwaysDue(checks.view, checksCritical, h, clock) :: DealtWith(checks.view, attempts, h)
    {
      attempts := [];
      var reaped: set<(string, string)> := {};
      var left, looks := checksCritical.Keys, 0;
      while left != {}
        invariant left <= checksCritical.Keys
        invariant ReapedSoFar(checks.view, checksCritical, attempts, reaped)
        invariant forall h | h !in left && AlwaysDue(checks.view, checksCritical, h, clock) ::
          DealtWith(checks.view, attempts, h)
      {
        var h :| h in left;
        left := left - {h};
        if h !in checks.entries {
          continue;
        }
        var check := checks.entries[h];
        var id := (check.listed.node, check.listed.serviceID);
        if id.1 == "" || id in reaped {
          continue;
        }
        var timeout, now := check.listed.definition.deregisterAfterDuration, clock(looks);
        looks := looks + 1;
        if timeout > 0 && timeout < now - checksCritical[h] {
          var ok := answers(|attempts|);
          OneMoreReaped(checks.view, checksCritical, attempts, reaped, Attempt(h, id.0, id.1, now, ok));
          attempts := attempts + [Attempt(h, id.0, id.1, now, ok)];
          if ok {
            reaped := reaped + {id};
          }
        }
      }
    }
  }

  function DeferredUpdate(d: DeferredSync): Update {
    NewUpdate(d.check.listed.node, d.check.listed.serviceID, d.check.listed.checkID, d.status, d.output, "", "")
  }

  /** The probes are in order after each entry of the list. */
  ghost predicate StaysInOrder(t: Table, list: seq<HealthCheck>, minimum: int) {
    forall i | 0 <= i <= |list| :: WellKept(ResyncAll(t, list[..i], minimum))
  }

  lemma SingleKindsStayInOrder(t: Table, list: seq<HealthCheck>, minimum: int)
    requires WellKept(t) && forall c | c in list :: SingleKind(c.definition)
    ensures StaysInOrder(t, list, minimum)
  {
    forall i | 0 <= i <= |list| ensures WellKept(ResyncAll(t, list[..i], minimum)) {
      SnapshotKeepsOrder(t, list[..i], minimum);
    }
  }

  lemma NextEntry(t: Table, list: seq<HealthCheck>, i: nat, minimum: int)
    requires i < |list|
    ensures ResyncAll(t, list[..i + 1], minimum) == ResyncOne(ResyncAll(t, list[..i], minimum), list[i], minimum)
    ensures Listed(list[..i + 1]) == Listed(list[..i]) + if Runnable(list[i]) then {HashOf(list[i])} else {}
  {
    assert list[..i + 1][..i] == list[..i];
  }

  lemma DropOfParts(checks: map<string, Tracked>, m: ByKind, critical: map<string, int>, h: string)
    ensures Drop(Table(checks, Join(m), critical), {h})
            == Table(checks - {h}, Join(ByKind(m.http - {h}, m.tcp - {h}, m.grpc - {h})), critical - {h})
  {
    JoinDrop(m, {h});
  }

  lemma NoProbes()
    ensures Join(ByKind(map[], map[], map[])) == map[]
  {
    assert forall s :: s !in Join(ByKind(map[], map[], map[]));
  }

  /** What UpdateChecks does to the probes of one entry, in terms of the joined maps. */
  lemma ProbeUpdateIsAsTold(t: Table, m: ByKind, was: Option<Definition>, h: string, d: Definition, minimum: int)
    requires t.probes == Join(m) && was == TrackedAs(t.checks, h)
    ensures KindOf(d) == KindOf(Clamped(d, minimum))
    ensures KindOf(d).Some? ==>
      var conf := ConfFor(d, KindOf(d).value, minimum);
      && Join(UpdatedMaps(m, was, h, Clamped(d, minimum), conf)) == UpdateProbes(t, h, d, conf)
      && (WellKept(t) ==> RoomFor(m, was, h, Clamped(d, minimum), conf.kind))
  {
    if KindOf(d).Some? {
      var conf := ConfFor(d, KindOf(d).value, minimum);
      UpdatedMapsAreUpdatedProbes(t, m, h, d, conf);
      ClampingIsNeutral(m, was, h, d, conf, minimum);
      if WellKept(t) {
        OrderLeavesRoom(t, m, h, d, conf.kind);
      }
    }
  }
}
