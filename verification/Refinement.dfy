/** check.go, batcher.go: batching is an optimisation. With nobody interfering, queueing updates and processing them
    as one batch leaves in the catalog what pushing each of them at once would have left. */
module Refinement {
  import opened Options
  import opened Store
  import opened Batcher
  import opened Batches
  import opened BatchLaws

  /** Every update pushed at once. */
  function PushAll(s: Server, us: seq<Update>): Server {
    if us == [] then s else PushOne(PushAll(s, us[..|us| - 1]), us[|us| - 1]).0
  }

  /** What is pending when all have been queued: the last update of each check. */
  function Pending(us: seq<Update>): map<string, Update> {
    if us == [] then map[] else var u := us[|us| - 1]; Pending(us[..|us| - 1])[u.key := u]
  }

  /** The last update aimed at an entry. */
  function Final(us: seq<Update>, k: Key): Option<Update> {
    if us == [] then None
    else if Target(us[|us| - 1]) == k then Some(us[|us| - 1])
    else Final(us[..|us| - 1], k)
  }

  /** The entries are e's, with the last update of each check in it. */
  ghost predicate WroteFinals(e: Entries, e': Entries, us: seq<Update>) {
    && e'.Keys == e.Keys
    && forall k | k in e ::
         match Final(us, k)
         case None => e'[k].val == e[k].val
         case Some(u) => e[k].val.CheckVal? && e'[k].val == Edited(e[k].val, u)
  }

  lemma OneMorePush(e: Entries, e1: Entries, e2: Entries, us: seq<Update>, u: Update)
    requires WroteFinals(e, e1, us) && Wrote(e1, e2, [u])
    ensures WroteFinals(e, e2, us + [u])
  {
    assert (us + [u])[..|us|] == us;
    forall k | k in e
      ensures match Final(us + [u], k)
        case None => e2[k].val == e[k].val
        case Some(w) => e[k].val.CheckVal? && e2[k].val == Edited(e[k].val, w)
    {
      if Target(u) == k {
        assert u in [u] && e1[k].val.CheckVal?;
      } else {
        assert forall w | w in [u] :: Target(w) != k;
      }
    }
  }

  lemma {:induction false} PushAllWritesFinals(s: Server, us: seq<Update>)
    requires s.script == []
    ensures var s' := PushAll(s, us); s'.script == [] && WroteFinals(s.world.entries, s'.world.entries, us)
  {
    if us != [] {
      var front, u := us[..|us| - 1], us[|us| - 1];
      PushAllWritesFinals(s, front);
      QuietPush(PushAll(s, front), u);
      OneMorePush(s.world.entries, PushAll(s, front).world.entries, PushAll(s, us).world.entries, front, u);
      assert us == front + [u];
    }
  }

  /** Of well-named updates, the pending ones are the last ones aimed at their entries. */
  lemma {:induction false} PendingAreFinal(us: seq<Update>)
    requires forall u | u in us :: WellNamed(u)
    ensures forall k | k in Pending(us) :: Pending(us)[k].key == k && Pending(us)[k] in us
    ensures forall k | k in Pending(us) :: Final(us, Target(Pending(us)[k])) == Some(Pending(us)[k])
    ensures forall k: Key | Final(us, k).Some? ::
      var u := Final(us, k).value; Target(u) == k && u.key in Pending(us) && Pending(us)[u.key] == u
  {
    if us != [] {
      var front, last := us[..|us| - 1], us[|us| - 1];
      assert us == front + [last] && last in us;
      PendingAreFinal(front);
      forall u | u in front ensures u.key == last.key <==> Target(u) == Target(last) {
        WellNamedKeys(u, last);
        WellNamedKeys(last, u);
      }
      forall k: Key | Final(us, k).Some?
        ensures var u := Final(us, k).value; Target(u) == k && u.key in Pending(us) && Pending(us)[u.key] == u
      {
        if Target(last) != k {
          assert Final(front, k).value in front;
        }
      }
    }
  }

  /** The same checks with the same contents; only the indices differ. */
  ghost predicate SameValues(e: Entries, e': Entries) {
    e'.Keys == e.Keys && forall k | k in e :: e'[k].val == e[k].val
  }

  /** A batch of what is pending writes the last update of each check. */
  lemma BatchWritesFinals(e: Entries, e': Entries, us: seq<Update>, batch: seq<Update>)
    requires (forall u | u in us :: WellNamed(u)) && Enumerates(batch, Pending(us)) && Wrote(e, e', batch)
    ensures WroteFinals(e, e', us)
  {
    PendingAreFinal(us);
    forall k | k in e
      ensures match Final(us, k)
        case None => e'[k].val == e[k].val
        case Some(u) => e[k].val.CheckVal? && e'[k].val == Edited(e[k].val, u)
    {
      if Final(us, k).Some? {
        assert Final(us, k).value in batch;
      } else {
        forall u | u in batch ensures Target(u) != k {
          assert Pending(us)[u.key] == u;
        }
      }
    }
  }

  lemma FinalsAgree(e: Entries, e1: Entries, e2: Entries, us: seq<Update>)
    requires WroteFinals(e, e1, us) && WroteFinals(e, e2, us)
    ensures SameValues(e1, e2)
  {
  }

  /** Batching refines immediate writes: for every sequence of updates, the catalog ends up the same. */
  lemma BatchingRefinesPushing(x: Side, us: seq<Update>, batch: seq<Update>, orders: seq<seq<nat>>)
    requires x.server.script == [] && (forall u | u in us :: WellNamed(u)) && Enumerates(batch, Pending(us))
    ensures SameValues(PushAll(x.server, us).world.entries, Process(x, batch, orders).0.server.world.entries)
  {
    PushAllWritesFinals(x.server, us);
    PendingAreFinal(us);
    WellNamedTargets(batch);
    QuietBatchIsWritten(x, batch, orders);
    var e, batched := x.server.world.entries, Process(x, batch, orders).0.server.world.entries;
    BatchWritesFinals(e, batched, us, batch);
    FinalsAgree(e, PushAll(x.server, us).world.entries, batched, us);
  }
}
