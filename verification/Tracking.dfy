/** check.go: the map of tracked checks (checkMap of esmHealthCheck). */
module Tracking {
  import opened Definitions
  import opened Counters
  import opened Resync

  function LocalOf(t: Tracked): Local {
    Local(t.hc.status, t.hc.output, t.fails, t.succs)
  }

  function WithLocal(t: Tracked, l: Local): Tracked {
    Tracked(t.hc.(status := l.status, output := l.output), l.fails, l.succs)
  }

  /** A tracked check: what was listed, overtaken by its mutable status, output and counters. */
  class EsmHealthCheck {
    const listed: HealthCheck
    const hash: string := HashOf(listed)
    var local: Local

    constructor (check: HealthCheck, failureCounter: int, successCounter: int)
      ensures listed == check && State() == Tracked(check, failureCounter, successCounter)
    {
      listed := check;
      local := Local(check.status, check.output, failureCounter, successCounter);
    }

    function State(): Tracked
      reads this
    {
      Tracked(listed.(status := local.status, output := local.output), local.fails, local.succs)
    }
  }

  class CheckMap {
    var entries: map<string, EsmHealthCheck>
    ghost var view: map<string, Tracked>  // the entries as values
    ghost var born: set<EsmHealthCheck>   // every check object there ever was in this map
    ghost var repr: set<object>

    ghost predicate Valid()
      reads this, repr
    {
      && this in repr && born <= repr
      && view.Keys == entries.Keys
      && (forall h | h in entries ::
            && entries[h] in born && entries[h].hash == h
            && view[h] == entries[h].State())
    }

    constructor ()
      ensures Valid() && fresh(repr) && entries == map[] && view == map[]
    {
      entries, view, born, repr := map[], map[], {}, {this};
    }

    /** Which objects there are, and which of them are tracked. */
    ghost function Objects(): (set<object>, set<EsmHealthCheck>, map<string, EsmHealthCheck>)
      reads this
    {
      (repr, born, entries)
    }

    /** The object is the one its hash is tracked by now. */
    ghost predicate IsCurrent(c: EsmHealthCheck)
      reads this
    {
      c.hash in entries && entries[c.hash] == c
    }

    /** UpdateChecks stores a new object for a listed check; only the counters come from the one it replaces. */
    method Replace(h: string, check: HealthCheck)
      requires Valid() && h == HashOf(check)
      modifies repr
      ensures Valid() && fresh(repr - old(repr)) && old(born) <= born
      ensures view == Track(old(view), h, check)
    {
      var fails, succs := 0, 0;
      if h in entries {
        fails, succs := entries[h].local.fails, entries[h].local.succs;
      }
      var updated := new EsmHealthCheck(check, fails, succs);
      born, repr := born + {updated}, repr + {updated};
      entries := entries[h := updated];
      view := Track(view, h, check);
    }

    method Delete(h: string)
      requires Valid()
      modifies repr
      ensures Valid() && repr == old(repr) && born == old(born)
      ensures view == old(view) - {h}
    {
      entries, view := entries - {h}, view - {h};
    }

    /** New values for the mutable fields of an object, which may have been replaced in the map since. */
    method Write(c: EsmHealthCheck, l: Local)
      requires Valid() && c in born
      modifies repr
      ensures Valid() && Objects() == old(Objects())
      ensures c.local == l
      ensures view == if old(IsCurrent(c)) then old(view)[c.hash := WithLocal(old(view)[c.hash], l)] else old(view)
    {
      if IsCurrent(c) {
        view := view[c.hash := WithLocal(view[c.hash], l)];
      }
      c.local := l;
    }
  }
}
