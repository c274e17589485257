/** check.go: the maps of running probes (stopMap), one for each kind. */
module Probes {
  import opened Options
  import opened Definitions
  import opened Resync

  /** A CheckHTTP, CheckTCP or CheckGRPC of the library. It runs from its start to its stop. */
  class Probe {
    const hash: string
    const conf: ProbeConf
    var started: bool
    var stopped: bool

    constructor (hash: string, conf: ProbeConf)
      ensures this.hash == hash && this.conf == conf && !Running() && !stopped
    {
      this.hash, this.conf, started, stopped := hash, conf, false, false;
    }

    predicate Running()
      reads this
    {
      started && !stopped
    }

    method Start()
      requires !stopped
      modifies this
      ensures Running()
    {
      started := true;
    }

    method Stop()
      modifies this
      ensures !Running()
    {
      stopped := true;
    }
  }

  type States = map<string, ProbeState>

  predicate AllStopped(x: States) {
    forall h | h in x :: !x[h].running
  }

  class StopMap {
    var entries: map<string, Probe>
    ghost var view: States      // the entries as values
    ghost var born: set<Probe>  // every probe there ever was in this map
    ghost var tidy: bool        // whether no probe can have been left running outside the map
    ghost var repr: set<object>

    ghost predicate Valid()
      reads this, repr
    {
      && this in repr && born <= repr
      && view.Keys == entries.Keys
      && (forall h | h in entries ::
            && entries[h] in born && entries[h].hash == h
            && view[h] == ProbeState(entries[h].conf, entries[h].Running()))
      && (tidy ==> forall p | p in born && p.Running() :: p.hash in entries && entries[p.hash] == p)
    }

    constructor ()
      ensures Valid() && fresh(repr) && entries == map[] && view == map[] && tidy
    {
      entries, view, born, tidy, repr := map[], map[], {}, true, {this};
    }

    /** Start a new probe and store it. Nothing strays if what it replaces was not running. */
    method Launch(h: string, conf: ProbeConf)
      requires Valid()
      modifies repr
      ensures Valid() && fresh(repr - old(repr))
      ensures view == old(view)[h := ProbeState(conf, true)]
      ensures old(tidy) && (h in old(view) ==> !old(view)[h].running) ==> tidy
    {
      var p := new Probe(h, conf);
      p.Start();
      repr := repr + {p};
      tidy := tidy && (h in view ==> !view[h].running);
      born := born + {p};
      entries := entries[h := p];
      view := view[h := ProbeState(conf, true)];
    }

    /** Stop the probe of a hash and, on demand, take it out of the map. */
    method Halt(h: string, remove: bool)
      requires Valid() && h in entries
      modifies repr
      ensures Valid() && repr == old(repr) && tidy == old(tidy)
      ensures view == if remove then old(view) - {h} else old(view)[h := old(view)[h].(running := false)]
    {
      StopEntry(h);
      if remove {
        entries := entries - {h};
        view := view - {h};
      }
    }

    method StopEntry(h: string)
      requires Valid() && h in entries
      modifies repr
      ensures Valid() && repr == old(repr) && tidy == old(tidy) && entries == old(entries)
      ensures view == old(view)[h := old(view)[h].(running := false)]
    {
      entries[h].Stop();
      view := view[h := view[h].(running := false)];
    }

    /** When all that the map holds is running, that is all that is running. */
    lemma LiveIsMapped()
      requires Valid() && tidy && forall h | h in view :: view[h].running
      ensures (set p | p in born && p.Running()) == entries.Values
    {
      forall p | p in born && p.Running() ensures p in entries.Values {
        assert entries[p.hash] == p;
      }
    }

    /** StopAll: every probe in the map stops. */
    method StopAll()
      requires Valid()
      modifies repr
      ensures Valid() && repr == old(repr) && tidy == old(tidy)
      ensures view.Keys == old(view.Keys) && AllStopped(view)
      ensures tidy ==> forall p | p in born :: !p.Running()
    {
      var left := entries.Keys;
      while left != {}
        invariant left <= entries.Keys && entries == old(entries)
        invariant Valid() && repr == old(repr) && tidy == old(tidy) && view.Keys == old(view.Keys)
        invariant forall h | h in entries && h !in left :: !view[h].running
      {
        var h :| h in left;
        StopEntry(h);
        left := left - {h};
      }
    }
  }

  // ---------------------------------------------------------------- the three maps as one

  datatype ByKind = ByKind(http: States, tcp: States, grpc: States)

  function Pick(m: ByKind, k: Kind): States {
    match k
    case HTTP => m.http
    case TCP => m.tcp
    case GRPC => m.grpc
  }

  function Update(m: ByKind, k: Kind, x: States): ByKind {
    match k
    case HTTP => m.(http := x)
    case TCP => m.(tcp := x)
    case GRPC => m.(grpc := x)
  }

  function Join(m: ByKind): (all: map<Slot, ProbeState>)
    ensures forall s :: s in all <==> s.hash in Pick(m, s.kind)
    ensures forall s | s in all :: all[s] == Pick(m, s.kind)[s.hash]
  {
    var slots := (set h | h in m.http :: Slot(HTTP, h)) + (set h | h in m.tcp :: Slot(TCP, h))
                 + (set h | h in m.grpc :: Slot(GRPC, h));
    map s | s in slots :: Pick(m, s.kind)[s.hash]
  }

  lemma PickUpdate(m: ByKind, k: Kind, x: States)
    ensures Pick(Update(m, k, x), k) == x
    ensures forall j | j != k :: Pick(Update(m, k, x), j) == Pick(m, j)
  {
  }

  lemma SameJoin(m: ByKind, all: map<Slot, ProbeState>)
    requires forall s :: s in all <==> s.hash in Pick(m, s.kind)
    requires forall s | s in all :: all[s] == Pick(m, s.kind)[s.hash]
    ensures Join(m) == all
  {
  }

  lemma JoinPut(m: ByKind, k: Kind, h: string, p: ProbeState)
    ensures Join(Update(m, k, Pick(m, k)[h := p])) == Join(m)[Slot(k, h) := p]
  {
    PickUpdate(m, k, Pick(m, k)[h := p]);
    SameJoin(Update(m, k, Pick(m, k)[h := p]), Join(m)[Slot(k, h) := p]);
  }

  lemma JoinRemove(m: ByKind, k: Kind, h: string)
    ensures Join(Update(m, k, Pick(m, k) - {h})) == Join(m) - {Slot(k, h)}
  {
    PickUpdate(m, k, Pick(m, k) - {h});
    SameJoin(Update(m, k, Pick(m, k) - {h}), Join(m) - {Slot(k, h)});
  }

  lemma JoinDrop(m: ByKind, gone: set<string>)
    ensures var all := Join(m);
      Join(ByKind(m.http - gone, m.tcp - gone, m.grpc - gone)) == map s | s in all && s.hash !in gone :: all[s]
  {
    var n := ByKind(m.http - gone, m.tcp - gone, m.grpc - gone);
    forall k ensures Pick(n, k) == Pick(m, k) - gone {
    }
  }

  /** The maps after the probe of a hash in one of them has been halted. */
  function Halted(m: ByKind, k: Kind, h: string, d: Definition): ByKind
    requires h in Pick(m, k)
  {
    var x := Pick(m, k);
    Update(m, k, if Field(d, k) == "" then x - {h} else x[h := x[h].(running := false)])
  }

  /** The first map that has the hash. */
  function StoppedKind(m: ByKind, h: string): (k: Option<Kind>)
    ensures k.Some? ==> h in Pick(m, k.value)
  {
    if h in m.http then Some(HTTP) else if h in m.tcp then Some(TCP) else if h in m.grpc then Some(GRPC) else None
  }

  lemma FirstIsStopped(m: ByKind, h: string)
    ensures FirstKind(Join(m), h) == StoppedKind(m, h)
  {
    assert forall j :: Slot(j, h) in Join(m) <==> h in Pick(m, j);
  }

  lemma HaltIsStop(m: ByKind, h: string, d: Definition)
    ensures StopExisting(Join(m), h, d)
            == match StoppedKind(m, h) case Some(k) => Some(Join(Halted(m, k, h, d))) case None => None
  {
    FirstIsStopped(m, h);
    var k := StoppedKind(m, h);
    if k.Some? {
      if Field(d, k.value) == "" {
        JoinRemove(m, k.value, h);
      } else {
        JoinPut(m, k.value, h, Pick(m, k.value)[h].(running := false));
      }
    }
  }

  function Launched(m: ByKind, h: string, conf: ProbeConf): ByKind {
    Update(m, conf.kind, Pick(m, conf.kind)[h := ProbeState(conf, true)])
  }

  /** The maps after an update of one hash: `was` is the definition it was tracked under, if it was. */
  function UpdatedMaps(m: ByKind, was: Option<Definition>, h: string, d: Definition, conf: ProbeConf): ByKind {
    var x := Pick(m, conf.kind);
    if was == None then Launched(m, h, conf)
    else if h in x && KeepsProbe(x[h].conf, conf, was.value, d) then m
    else
      match StoppedKind(m, h)
      case Some(j) => Launched(Halted(m, j, h, d), h, conf)
      case None => m
  }

  /** What is launched replaces nothing that runs. */
  predicate RoomFor(m: ByKind, was: Option<Definition>, h: string, d: Definition, k: Kind) {
    if was == None then h !in Pick(m, k)
    else
      match StoppedKind(m, h)
      case Some(j) => var x := Pick(Halted(m, j, h, d), k); h in x ==> !x[h].running
      case None => true
  }

  /** The definition a hash is tracked under. */
  function TrackedAs(checks: map<string, Tracked>, h: string): Option<Definition> {
    if h in checks then Some(checks[h].hc.definition) else None
  }

  lemma UpdatedMapsAreUpdatedProbes(t: Table, m: ByKind, h: string, d: Definition, conf: ProbeConf)
    requires t.probes == Join(m)
    ensures Join(UpdatedMaps(m, TrackedAs(t.checks, h), h, d, conf)) == UpdateProbes(t, h, d, conf)
  {
    if h !in t.checks {
      LaunchedIsPut(m, h, conf);
    } else {
      HaltIsStop(m, h, d);
      var j := StoppedKind(m, h);
      if j.Some? {
        LaunchedIsPut(Halted(m, j.value, h, d), h, conf);
      }
    }
  }

  lemma LaunchedIsPut(m: ByKind, h: string, conf: ProbeConf)
    ensures Join(Launched(m, h, conf)) == Join(m)[Slot(conf.kind, h) := ProbeState(conf, true)]
  {
    JoinPut(m, conf.kind, h, ProbeState(conf, true));
  }

  lemma OrderLeavesRoom(t: Table, m: ByKind, h: string, d: Definition, k: Kind)
    requires WellKept(t) && t.probes == Join(m)
    ensures RoomFor(m, TrackedAs(t.checks, h), h, d, k)
  {
    FirstIsStopped(m, h);
    assert Slot(k, h) in t.probes <==> IsSlotOf(t.checks, Slot(k, h));
    if h in t.checks {
      FirstKindIsTheKind(t, h);
    }
  }

  /** Clamping the interval changes nothing else about an update. */
  lemma ClampingIsNeutral(m: ByKind, was: Option<Definition>, h: string, d: Definition, conf: ProbeConf, minimum: int)
    ensures UpdatedMaps(m, was, h, Clamped(d, minimum), conf) == UpdatedMaps(m, was, h, d, conf)
    ensures RoomFor(m, was, h, Clamped(d, minimum), conf.kind) == RoomFor(m, was, h, d, conf.kind)
  {
    assert forall k :: Field(Clamped(d, minimum), k) == Field(d, k);
  }

  /** The three probe maps of the runner. */
  class ProbeTable {
    const checksHTTP: StopMap
    const checksTCP: StopMap
    const checksGRPC: StopMap
    ghost var view: ByKind      // the maps as values
    ghost var tidy: bool        // whether no probe can have been left running outside the maps
    ghost var repr: set<object>

    ghost predicate Valid()
      reads this, repr
    {
      && this in repr
      && checksHTTP in repr && checksHTTP.repr <= repr && this !in checksHTTP.repr && checksHTTP.Valid()
      && checksTCP in repr && checksTCP.repr <= repr && this !in checksTCP.repr && checksTCP.Valid()
      && checksGRPC in repr && checksGRPC.repr <= repr && this !in checksGRPC.repr && checksGRPC.Valid()
      && checksHTTP.repr !! checksTCP.repr && checksHTTP.repr !! checksGRPC.repr && checksTCP.repr !! checksGRPC.repr
      && view == ByKind(checksHTTP.view, checksTCP.view, checksGRPC.view)
      && (tidy ==> checksHTTP.tidy && checksTCP.tidy && checksGRPC.tidy)
    }

    constructor ()
      ensures Valid() && fresh(repr) && view == ByKind(map[], map[], map[]) && tidy
    {
      checksHTTP := new StopMap();
      checksTCP := new StopMap();
      checksGRPC := new StopMap();
      view, tidy, repr := ByKind(map[], map[], map[]), true, {};
      new;
      repr := {this} + checksHTTP.repr + checksTCP.repr + checksGRPC.repr;
    }

    ghost predicate LiveIn(m: StopMap)
      reads m, m.born
    {
      (set p | p in m.born && p.Running()) == m.entries.Values
    }

    /** For each kind, the probes that were started and not stopped are exactly those in its map. */
    ghost predicate LiveProbesAreMapped()
      requires Valid()
      reads this, repr
    {
      LiveIn(checksHTTP) && LiveIn(checksTCP) && LiveIn(checksGRPC)
    }

    lemma OrderMeansLive(t: Table)
      requires Valid() && tidy && WellKept(t) && t.probes == Join(view)
      ensures LiveProbesAreMapped()
    {
      forall k, h | h in Pick(view, k) ensures Pick(view, k)[h].running {
        assert Join(view)[Slot(k, h)].running;
      }
      assert Pick(view, HTTP) == view.http && Pick(view, TCP) == view.tcp && Pick(view, GRPC) == view.grpc;
      checksHTTP.LiveIsMapped();
      checksTCP.LiveIsMapped();
      checksGRPC.LiveIsMapped();
    }

    /** Halt the probe of a hash in one of the maps. */
    method HaltIn(k: Kind, h: string, remove: bool)
      requires Valid() && h in Pick(view, k)
      modifies repr
      ensures Valid() && repr == old(repr) && tidy == old(tidy)
      ensures var x := Pick(old(view), k);
        view == Update(old(view), k, if remove then x - {h} else x[h := x[h].(running := false)])
    {
      match k {
        case HTTP =>
          checksHTTP.Halt(h, remove);
          view := view.(http := checksHTTP.view);
        case TCP =>
          checksTCP.Halt(h, remove);
          view := view.(tcp := checksTCP.view);
        case GRPC =>
          checksGRPC.Halt(h, remove);
          view := view.(grpc := checksGRPC.view);
      }
    }

    method StopExistingChecks(definition: Definition, checkHash: string) returns (ok: bool)
      requires Valid()
      modifies repr
      ensures Valid() && repr == old(repr) && tidy == old(tidy)
      ensures match StoppedKind(old(view), checkHash)
        case Some(k) => ok && view == Halted(old(view), k, checkHash, definition)
        case None => !ok && view == old(view)
    {
      if checkHash in checksHTTP.entries {
        HaltIn(HTTP, checkHash, definition.http == "");
        return true;
      } else if checkHash in checksTCP.entries {
        HaltIn(TCP, checkHash, definition.tcp == "");
        return true;
      } else if checkHash in checksGRPC.entries {
        HaltIn(GRPC, checkHash, definition.grpc == "");
        return true;
      }
      return false;
    }

    /** The new probe starts, and is stored. */
    method StartHTTP(h: string, conf: ProbeConf)
      requires Valid() && conf.kind == HTTP
      modifies repr
      ensures Valid() && fresh(repr - old(repr))
      ensures view == Launched(old(view), h, conf)
      ensures old(tidy) && (h in old(view).http ==> !old(view).http[h].running) ==> tidy
    {
      tidy := tidy && (h in view.http ==> !view.http[h].running);
      checksHTTP.Launch(h, conf);
      view, repr := view.(http := checksHTTP.view), repr + checksHTTP.repr;
    }

    /** The new probe starts, and is stored. */
    method StartTCP(h: string, conf: ProbeConf)
      requires Valid() && conf.kind == TCP
      modifies repr
      ensures Valid() && fresh(repr - old(repr))
      ensures view == Launched(old(view), h, conf)
      ensures old(tidy) && (h in old(view).tcp ==> !old(view).tcp[h].running) ==> tidy
    {
      tidy := tidy && (h in view.tcp ==> !view.tcp[h].running);
      checksTCP.Launch(h, conf);
      view, repr := view.(tcp := checksTCP.view), repr + checksTCP.repr;
    }

    /** The new probe starts, and is stored. */
    method StartGRPC(h: string, conf: ProbeConf)
      requires Valid() && conf.kind == GRPC
      modifies repr
      ensures Valid() && fresh(repr - old(repr))
      ensures view == Launched(old(view), h, conf)
      ensures old(tidy) && (h in old(view).grpc ==> !old(view).grpc[h].running) ==> tidy
    {
      tidy := tidy && (h in view.grpc ==> !view.grpc[h].running);
      checksGRPC.Launch(h, conf);
      view, repr := view.(grpc := checksGRPC.view), repr + checksGRPC.repr;
    }

    method UpdateCheckHTTP(was: Option<Definition>, checkHash: string, definition: Definition) returns (changed: bool)
      requires Valid()
      modifies repr
      ensures Valid() && fresh(repr - old(repr))
      ensures view == UpdatedMaps(old(view), was, checkHash, definition, ProbeFor(HTTP, definition))
      ensures old(tidy) && RoomFor(old(view), was, checkHash, definition, HTTP) ==> tidy
    {
      var conf := ProbeFor(HTTP, definition);
      if was.Some? {
        if && checkHash in checksHTTP.entries
           && KeepsProbe(checksHTTP.entries[checkHash].conf, conf, was.value, definition)
        {
          return false;
        }
        var ok := StopExistingChecks(definition, checkHash);
        if !ok {
          return false;
        }
      }
      StartHTTP(checkHash, conf);
      return true;
    }

    method UpdateCheckTCP(was: Option<Definition>, checkHash: string, definition: Definition) returns (changed: bool)
      requires Valid()
      modifies repr
      ensures Valid() && fresh(repr - old(repr))
      ensures view == UpdatedMaps(old(view), was, checkHash, definition, ProbeFor(TCP, definition))
      ensures old(tidy) && RoomFor(old(view), was, checkHash, definition, TCP) ==> tidy
    {
      var conf := ProbeFor(TCP, definition);
      if was.Some? {
        if && checkHash in checksTCP.entries
           && KeepsProbe(checksTCP.entries[checkHash].conf, conf, was.value, definition)
        {
          return false;
        }
        var ok := StopExistingChecks(definition, checkHash);
        if !ok {
          return false;
        }
      }
      StartTCP(checkHash, conf);
      return true;
    }

    method UpdateCheckGRPC(was: Option<Definition>, checkHash: string, definition: Definition) returns (changed: bool)
      requires Valid()
      modifies repr
      ensures Valid() && fresh(repr - old(repr))
      ensures view == UpdatedMaps(old(view), was, checkHash, definition, ProbeFor(GRPC, definition))
      ensures old(tidy) && RoomFor(old(view), was, checkHash, definition, GRPC) ==> tidy
    {
      var conf := ProbeFor(GRPC, definition);
      if was.Some? {
        if && checkHash in checksGRPC.entries
           && KeepsProbe(checksGRPC.entries[checkHash].conf, conf, was.value, definition)
        {
          return false;
        }
        var ok := StopExistingChecks(definition, checkHash);
        if !ok {
          return false;
        }
      }
      StartGRPC(checkHash, conf);
      return true;
    }

    /** The probe of a hash in one of the maps, if there is one, stops and leaves it. */
    method Remove(k: Kind, h: string)
      requires Valid()
      modifies repr
      ensures Valid() && repr == old(repr) && tidy == old(tidy)
      ensures view == Update(old(view), k, Pick(old(view), k) - {h})
    {
      if h in (match k case HTTP => checksHTTP.entries case TCP => checksTCP.entries case GRPC => checksGRPC.entries) {
        HaltIn(k, h, true);
      }
    }

    /** All probes of a hash stop and leave the maps. */
    method DropProbes(h: string)
      requires Valid()
      modifies repr
      ensures Valid() && repr == old(repr) && tidy == old(tidy)
      ensures view == ByKind(old(view).http - {h}, old(view).tcp - {h}, old(view).grpc - {h})
    {
      Remove(HTTP, h);
      Remove(TCP, h);
      Remove(GRPC, h);
    }

    /** All probes stop, and stay in the maps. */
    method StopAll()
      requires Valid()
      modifies repr
      ensures Valid() && repr == old(repr) && tidy == old(tidy)
      ensures AllStopped(view.http) && AllStopped(view.tcp) && AllStopped(view.grpc)
    {
      checksHTTP.StopAll();
      checksTCP.StopAll();
      checksGRPC.StopAll();
      view := ByKind(checksHTTP.view, checksTCP.view, checksGRPC.view);
    }
  }
}
