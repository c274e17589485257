/** batcher.go: check updates are queued, one per check, and delivered in batches. */
module Batcher {
  import opened Keys

  /** pendingCheckUpdate, with what is computed from the identity of its check: the batch key, the hash under which the
      runner tracks the check, and the id under which the catalog is asked for it. */
  datatype Update = Update(
    key: string, hash: string, lookupID: string, node: string, checkID: string,
    status: string, output: string, oldStatus: string, oldOutput: string)

  function NewUpdate(node: string, serviceID: string, checkID: string,
                     status: string, output: string, oldStatus: string, oldOutput: string): Update {
    Update(MakeCheckKey(node, checkID), HashCheck(node, serviceID, checkID), LookupID(node, checkID), node, checkID,
           status, output, oldStatus, oldOutput)
  }

  /** The update is one for some check of a slash-free node that the catalog finds under its own id. */
  ghost predicate WellNamed(u: Update) {
    && NoSlash(u.node) && Unprefixed(u.node, u.checkID)
    && exists serviceID :: u == NewUpdate(u.node, serviceID, u.checkID, u.status, u.output, u.oldStatus, u.oldOutput)
  }

  /** Well-named updates of different checks differ in their keys and in the ids they are looked up by. */
  lemma WellNamedKeys(u: Update, v: Update)
    requires WellNamed(u) && WellNamed(v)
    ensures u.key == v.key <==> u.node == v.node && u.checkID == v.checkID
    ensures u.lookupID == u.checkID
  {
    MakeCheckKeyInjective(u.node, u.checkID, v.node, v.checkID);
    LookupIsIdentity(u.node, u.checkID);
  }

  /** If their ids hold no slash either, they differ in their hashes. */
  lemma WellNamedHashes(u: Update, v: Update)
    requires WellNamed(u) && WellNamed(v) && NoSlash(u.checkID) && NoSlash(v.checkID) && u.hash == v.hash
    ensures u.key == v.key
  {
    var s :| u == NewUpdate(u.node, s, u.checkID, u.status, u.output, u.oldStatus, u.oldOutput);
    var t :| v == NewUpdate(v.node, t, v.checkID, v.status, v.output, v.oldStatus, v.oldOutput);
    HashInjective(u.node, s, u.checkID, v.node, t, v.checkID);
  }

  // ---------------------------------------------------------------- what updates amount to

  /** The last status and output per check after applying the updates in order. */
  function LastWrites(us: seq<Update>): map<string, (string, string)> {
    if us == [] then map[]
    else
      var u := us[|us| - 1];
      LastWrites(us[..|us| - 1])[u.key := (u.status, u.output)]
  }

  function Written(pending: map<string, Update>): map<string, (string, string)> {
    map k | k in pending :: (pending[k].status, pending[k].output)
  }

  function Flatten(batches: seq<seq<Update>>): seq<Update> {
    if batches == [] then [] else Flatten(batches[..|batches| - 1]) + batches[|batches| - 1]
  }

  ghost predicate DistinctKeys(us: seq<Update>) {
    forall i, j | 0 <= i < j < |us| :: us[i].key != us[j].key
  }

  /** The batch holds exactly the pending updates, in some order. */
  ghost predicate Enumerates(batch: seq<Update>, pending: map<string, Update>) {
    && DistinctKeys(batch)
    && (forall u | u in batch :: u.key in pending && pending[u.key] == u)
    && (forall k | k in pending :: pending[k] in batch)
  }

  lemma LastWritesSnoc(us: seq<Update>, u: Update)
    ensures LastWrites(us + [u]) == LastWrites(us)[u.key := (u.status, u.output)]
  {
    assert (us + [u])[..|us|] == us;
  }

  /** A listing of the pending updates without its last element lists the others. */
  lemma EnumeratesFront(batch: seq<Update>, u: Update, pending: map<string, Update>)
    requires Enumerates(batch + [u], pending) && forall k | k in pending :: pending[k].key == k
    ensures Enumerates(batch, pending - {u.key})
    ensures u.key in pending && pending[u.key] == u
  {
    var all := batch + [u];
    assert all[|batch|] == u && u in all;
    forall i | 0 <= i < |batch| ensures all[i] == batch[i] && batch[i].key != u.key && batch[i] in all {
    }
    forall i, j | 0 <= i < j < |batch| ensures batch[i].key != batch[j].key {
      assert all[i].key != all[j].key;
    }
    forall k | k in pending - {u.key} ensures pending[k] in batch {
      assert pending[k] in all;
      var i :| 0 <= i < |all| && all[i] == pending[k];
      assert i < |batch|;
    }
  }

  lemma OneMoreEnumerated(u: Update, rest: seq<Update>, pending: map<string, Update>)
    requires u.key in pending && pending[u.key] == u && Enumerates(rest, pending - {u.key})
    ensures Enumerates([u] + rest, pending)
  {
    var all := [u] + rest;
    forall i, j | 0 <= i < j < |all| ensures all[i].key != all[j].key {
      assert all[j] == rest[j - 1] && rest[j - 1] in rest;
      assert i > 0 ==> all[i] == rest[i - 1];
    }
    forall k | k in pending ensures pending[k] in all {
      if k != u.key {
        assert (pending - {u.key})[k] in rest;
      }
    }
  }

  /** Whatever is pending can be listed ... */
  lemma {:induction false} EnumerationExists(pending: map<string, Update>) returns (batch: seq<Update>)
    requires forall k | k in pending :: pending[k].key == k
    ensures Enumerates(batch, pending)
    decreases |pending|
  {
    batch := [];
    if pending != map[] {
      var k :| k in pending;
      assert (pending - {k}).Keys == pending.Keys - {k} && |pending.Keys| == |pending|;
      var rest := EnumerationExists(pending - {k});
      OneMoreEnumerated(pending[k], rest, pending);
      batch := [pending[k]] + rest;
    }
  }

  /** ... in an order that begins with any of it. */
  lemma EnumerationFrom(u: Update, pending: map<string, Update>) returns (batch: seq<Update>)
    requires u.key in pending && pending[u.key] == u && forall k | k in pending :: pending[k].key == k
    ensures Enumerates(batch, pending) && batch != [] && batch[0] == u
  {
    var rest := EnumerationExists(pending - {u.key});
    OneMoreEnumerated(u, rest, pending);
    batch := [u] + rest;
  }

  lemma {:induction false} LastWritesConcat(us: seq<Update>, vs: seq<Update>)
    ensures LastWrites(us + vs) == LastWrites(us) + LastWrites(vs)
  {
    if vs == [] {
      assert us + vs == us;
    } else {
      var front, last := vs[..|vs| - 1], vs[|vs| - 1];
      assert us + vs == (us + front) + [last];
      LastWritesSnoc(us + front, last);
      LastWritesConcat(us, front);
    }
  }

  lemma WrittenPut(pending: map<string, Update>, u: Update)
    requires u.key in pending && pending[u.key] == u
    ensures Written(pending - {u.key})[u.key := (u.status, u.output)] == Written(pending)
  {
  }

  lemma NothingEnumerated(pending: map<string, Update>)
    requires Enumerates([], pending)
    ensures pending == map[]
  {
    assert forall k | k in pending :: pending[k] in [];
  }

  lemma {:induction false} EnumeratedWrites(batch: seq<Update>, pending: map<string, Update>)
    requires Enumerates(batch, pending) && forall k | k in pending :: pending[k].key == k
    ensures LastWrites(batch) == Written(pending)
    decreases |batch|
  {
    if batch == [] {
      NothingEnumerated(pending);
    } else {
      var front, u := batch[..|batch| - 1], batch[|batch| - 1];
      assert batch == front + [u];
      EnumeratesFront(front, u, pending);
      EnumeratedWrites(front, pending - {u.key});
      WrittenPut(pending, u);
    }
  }

  /** Delivering the pending updates, in whatever order, writes what each of them says. */
  lemma BatchWritesPending(base: seq<Update>, batch: seq<Update>, pending: map<string, Update>)
    requires Enumerates(batch, pending) && forall k | k in pending :: pending[k].key == k
    ensures LastWrites(base + batch) == LastWrites(base) + Written(pending)
  {
    LastWritesConcat(base, batch);
    EnumeratedWrites(batch, pending);
  }

  ghost predicate Proper(batch: seq<Update>, added: seq<Update>, max: nat) {
    batch != [] && |batch| <= max && DistinctKeys(batch) && forall u | u in batch :: u in added
  }

  /** Batching loses nothing: every pending update was added, under its key; every batch is non-empty, at most `max`
      long, repeats no check and holds only added updates; and the delivered batches followed by what is pending write
      what adding at once would have written. */
  ghost predicate Accounted(
      pending: map<string, Update>, added: seq<Update>, delivered: seq<seq<Update>>, max: nat)
  {
    && (forall k | k in pending :: pending[k].key == k && pending[k] in added)
    && (forall b | b in delivered :: Proper(b, added, max))
    && LastWrites(added) == LastWrites(Flatten(delivered)) + Written(pending)
  }

  lemma AddIsAccounted(
      pending: map<string, Update>, added: seq<Update>, delivered: seq<seq<Update>>, max: nat, u: Update)
    requires Accounted(pending, added, delivered, max)
    ensures Accounted(pending[u.key := u], added + [u], delivered, max)
  {
    var more := pending[u.key := u];
    forall k | k in more ensures more[k].key == k && more[k] in added + [u] {
    }
    LastWritesSnoc(added, u);
    OverlayPut(LastWrites(Flatten(delivered)), pending, u);
  }

  lemma OverlayPut(base: map<string, (string, string)>, pending: map<string, Update>, u: Update)
    ensures (base + Written(pending))[u.key := (u.status, u.output)] == base + Written(pending[u.key := u])
  {
  }

  lemma DrainedIsProper(pending: map<string, Update>, added: seq<Update>, max: nat, batch: seq<Update>)
    requires (forall k | k in pending :: pending[k] in added) && Enumerates(batch, pending) && 0 < |batch| <= max
    ensures Proper(batch, added, max)
  {
  }

  lemma DrainIsAccounted(
      pending: map<string, Update>, added: seq<Update>, delivered: seq<seq<Update>>, max: nat, batch: seq<Update>)
    requires Accounted(pending, added, delivered, max) && Enumerates(batch, pending) && |batch| <= max
    ensures Accounted(map[], added, if batch == [] then delivered else delivered + [batch], max)
    ensures LastWrites(Flatten(if batch == [] then delivered else delivered + [batch])) == LastWrites(added)
  {
    BatchWritesPending(Flatten(delivered), batch, pending);
    FlattenSnoc(delivered, batch);
    if batch != [] {
      DrainedIsProper(pending, added, max, batch);
    }
    assert LastWrites(added) + Written(map[]) == LastWrites(added);
  }

  lemma FlattenSnoc(delivered: seq<seq<Update>>, batch: seq<Update>)
    ensures Flatten(delivered + [batch]) == Flatten(delivered) + batch
    ensures batch == [] ==> Flatten(delivered) + batch == Flatten(delivered)
  {
    assert (delivered + [batch])[..|delivered|] == delivered;
  }

  // ---------------------------------------------------------------- the batcher

  /** CheckUpdateBatcher. The callback is represented by what the methods return: a non-empty result is the batch that
      processUpdates hands to the process function. */
  class CheckUpdateBatcher {
    const maxBatchSize: nat
    var pendingUpdates: map<string, Update>
    var timerArmed: bool
    ghost var added: seq<Update>           // every update ever queued
    ghost var delivered: seq<seq<Update>>  // every batch ever handed over

    /** Besides the accounting: whatever is pending has a timer running for it, and a full batch never waits. */
    ghost predicate Valid()
      reads this
    {
      && |pendingUpdates| < maxBatchSize
      && (timerArmed <==> pendingUpdates != map[])
      && Accounted(pendingUpdates, added, delivered, maxBatchSize)
    }

    constructor (maxBatchSize: nat)
      ensures Valid() && pendingUpdates == map[] && added == [] && delivered == []
      ensures this.maxBatchSize == if maxBatchSize == 0 then 64 else maxBatchSize
    {
      this.maxBatchSize := if maxBatchSize == 0 then 64 else maxBatchSize;
      pendingUpdates, timerArmed, added, delivered := map[], false, [], [];
    }

    /** Add: queue, replacing what was pending for the check; deliver at once when the batch is full, and otherwise see
        to it that a timer is running. */
    method Add(u: Update) returns (batch: seq<Update>)
      requires Valid()
      modifies this
      ensures Valid() && added == old(added) + [u]
      ensures batch == [] <==> |old(pendingUpdates)[u.key := u]| < maxBatchSize
      ensures batch == [] ==>
        pendingUpdates == old(pendingUpdates)[u.key := u] && delivered == old(delivered)
      ensures batch != [] ==>
        && pendingUpdates == map[] && delivered == old(delivered) + [batch]
        && Enumerates(batch, old(pendingUpdates)[u.key := u])
    {
      AddIsAccounted(pendingUpdates, added, delivered, maxBatchSize, u);
      PutGrowsByOne(pendingUpdates, u);
      added, pendingUpdates := added + [u], pendingUpdates[u.key := u];
      if |pendingUpdates| >= maxBatchSize {
        batch := DrainLocked();
      } else {
        batch, timerArmed := [], true;
      }
    }

    /** Flush: deliver whatever is pending. */
    method Flush() returns (batch: seq<Update>)
      requires Valid()
      modifies this
      ensures Valid() && added == old(added) && pendingUpdates == map[]
      ensures Enumerates(batch, old(pendingUpdates)) && (batch == [] <==> old(pendingUpdates) == map[])
      ensures delivered == if batch == [] then old(delivered) else old(delivered) + [batch]
      ensures LastWrites(Flatten(delivered)) == LastWrites(added)
    {
      batch := DrainLocked();
    }

    /** Stop: a last flush. Nothing is pending afterwards and everything ever added has been delivered. */
    method Stop() returns (batch: seq<Update>)
      requires Valid()
      modifies this
      ensures Valid() && added == old(added) && pendingUpdates == map[] && !timerArmed
      ensures Enumerates(batch, old(pendingUpdates))
      ensures delivered == if batch == [] then old(delivered) else old(delivered) + [batch]
      ensures LastWrites(Flatten(delivered)) == LastWrites(added)
    {
      batch := DrainLocked();
    }

    /** drainLocked, and the hand-over that follows it: stop the timer and take everything pending, in the arbitrary
        order in which a map is ranged over. */
    method DrainLocked() returns (batch: seq<Update>)
      requires 0 < maxBatchSize && |pendingUpdates| <= maxBatchSize
      requires Accounted(pendingUpdates, added, delivered, maxBatchSize)
      modifies this
      ensures Valid() && added == old(added) && pendingUpdates == map[]
      ensures Enumerates(batch, old(pendingUpdates)) && (batch == [] <==> old(pendingUpdates) == map[])
      ensures delivered == if batch == [] then old(delivered) else old(delivered) + [batch]
      ensures LastWrites(Flatten(delivered)) == LastWrites(added)
    {
      timerArmed := false;
      batch := TakePending(pendingUpdates, added, delivered, maxBatchSize);
      delivered := if batch == [] then delivered else delivered + [batch];
      pendingUpdates := map[];
    }
  }

  lemma PutGrowsByOne(pending: map<string, Update>, u: Update)
    ensures pending[u.key := u] != map[] && |pending[u.key := u]| <= |pending| + 1
  {
    var more := pending[u.key := u];
    assert more.Keys == pending.Keys + {u.key};
    assert |more.Keys| == |more| && |pending.Keys| == |pending|;
  }

  /** Ranging over the pending map. */
  method ListPending(pending: map<string, Update>) returns (batch: seq<Update>)
    requires forall k | k in pending :: pending[k].key == k
    ensures Enumerates(batch, pending) && |batch| == |pending|
  {
    batch := [];
    var left := pending.Keys;
    while left != {}
      invariant left <= pending.Keys && |batch| + |left| == |pending|
      invariant DistinctKeys(batch)
      invariant forall u | u in batch :: u.key in pending && u.key !in left && pending[u.key] == u
      invariant forall k | k in pending && k !in left :: pending[k] in batch
    {
      var k :| k in left;
      batch, left := batch + [pending[k]], left - {k};
    }
  }

  /** The same, with the account of it. */
  method TakePending(pending: map<string, Update>, ghost added: seq<Update>, ghost delivered: seq<seq<Update>>,
                     ghost max: nat)
    returns (batch: seq<Update>)
    requires Accounted(pending, added, delivered, max) && |pending| <= max
    ensures Enumerates(batch, pending) && (batch == [] <==> pending == map[])
    ensures Accounted(map[], added, if batch == [] then delivered else delivered + [batch], max)
    ensures LastWrites(Flatten(if batch == [] then delivered else delivered + [batch])) == LastWrites(added)
  {
    batch := ListPending(pending);
    DrainIsAccounted(pending, added, delivered, max, batch);
  }
}
