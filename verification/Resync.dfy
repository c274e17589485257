/** check.go, UpdateChecks as a function of values: what a catalog snapshot does to the tracked checks and to the probes
    of the three kinds. */
module Resync {
  import opened Options
  import opened Keys
  import opened Definitions

  /** esmHealthCheck: the check as last seen (with the local status and output) and its counters. */
  datatype Tracked = Tracked(hc: HealthCheck, fails: int, succs: int)

  datatype ProbeState = ProbeState(conf: ProbeConf, running: bool)

  /** A place in one of the three probe maps. */
  datatype Slot = Slot(kind: Kind, hash: string)

  /** The runner's maps: the tracked checks, the three probe maps taken together, and the critical times. */
  datatype Table = Table(checks: map<string, Tracked>, probes: map<Slot, ProbeState>, critical: map<string, int>)

  function HashOf(c: HealthCheck): string {
    HashCheck(c.node, c.serviceID, c.checkID)
  }

  /** Whether the snapshot entry is one for the runner at all. */
  predicate Runnable(c: HealthCheck) {
    c.checkID != EXTERNAL_CHECK_NAME && KindOf(c.definition).Some?
  }

  /** The probe a runnable entry asks for. */
  function Wanted(c: HealthCheck, minimum: int): (conf: ProbeConf)
    requires Runnable(c)
    ensures Some(conf.kind) == KindOf(c.definition)
  {
    ConfFor(c.definition, KindOf(c.definition).value, minimum)
  }

  // ---------------------------------------------------------------- one entry

  /** The first of the three maps that has the hash. */
  function FirstKind(probes: map<Slot, ProbeState>, h: string): Option<Kind> {
    if Slot(HTTP, h) in probes then Some(HTTP)
    else if Slot(TCP, h) in probes then Some(TCP)
    else if Slot(GRPC, h) in probes then Some(GRPC)
    else None
  }

  /** stopExistingChecks: the probe in the first map with the hash stops, and leaves the map only when the new
      definition does not fill the field of that kind. */
  function StopExisting(probes: map<Slot, ProbeState>, h: string, d: Definition): Option<map<Slot, ProbeState>> {
    match FirstKind(probes, h)
    case None => None
    case Some(j) =>
      var s := Slot(j, h);
      Some(if Field(d, j) == "" then probes - {s} else probes[s := probes[s].(running := false)])
  }

  /** updateCheckHTTP, updateCheckTCP and updateCheckGRPC. */
  function UpdateProbes(t: Table, h: string, d: Definition, conf: ProbeConf): map<Slot, ProbeState> {
    var s := Slot(conf.kind, h);
    if h !in t.checks then t.probes[s := ProbeState(conf, true)]
    else if s in t.probes && KeepsProbe(t.probes[s].conf, conf, t.checks[h].hc.definition, d) then t.probes
    else
      match StopExisting(t.probes, h, d)
      case Some(rest) => rest[s := ProbeState(conf, true)]
      case None => t.probes
  }

  /** The entry replaces the tracked check, and the counters carry over. */
  function Track(checks: map<string, Tracked>, h: string, c: HealthCheck): map<string, Tracked> {
    checks[h := if h in checks then checks[h].(hc := c) else Tracked(c, 0, 0)]
  }

  function ResyncOne(t: Table, c: HealthCheck, minimum: int): Table {
    if !Runnable(c) then t
    else
      var h := HashOf(c);
      t.(probes := UpdateProbes(t, h, c.definition, Wanted(c, minimum)), checks := Track(t.checks, h, c))
  }

  // ---------------------------------------------------------------- the whole snapshot

  function ResyncAll(t: Table, list: seq<HealthCheck>, minimum: int): Table {
    if list == [] then t else ResyncOne(ResyncAll(t, list[..|list| - 1], minimum), list[|list| - 1], minimum)
  }

  /** The hashes found in the snapshot. */
  function Listed(list: seq<HealthCheck>): set<string> {
    if list == [] then {}
    else
      var c := list[|list| - 1];
      Listed(list[..|list| - 1]) + if Runnable(c) then {HashOf(c)} else {}
  }

  /** Checks that are dropped leave every map. */
  function Drop(t: Table, gone: set<string>): Table {
    Table(t.checks - gone, map s | s in t.probes && s.hash !in gone :: t.probes[s], t.critical - gone)
  }

  lemma DropOneMore(t: Table, gone: set<string>, h: string)
    ensures Drop(Drop(t, gone), {h}) == Drop(t, gone + {h})
  {
    var l, r := Drop(Drop(t, gone), {h}), Drop(t, gone + {h});
    assert l.checks == r.checks && l.critical == r.critical;
    assert l.probes == r.probes;
  }

  lemma DropNothing(t: Table)
    ensures Drop(t, {}) == t
  {
    assert Drop(t, {}).probes == t.probes;
  }

  /** UpdateChecks. */
  function Resynced(t: Table, list: seq<HealthCheck>, minimum: int): Table {
    var t1 := ResyncAll(t, list, minimum);
    Drop(t1, t1.checks.Keys - Listed(list))
  }

  // ---------------------------------------------------------------- the probes are the checks' probes

  /** The slot of a tracked check: its hash, in the map of its definition's kind. */
  predicate IsSlotOf(checks: map<string, Tracked>, s: Slot) {
    s.hash in checks && KindOf(checks[s.hash].hc.definition) == Some(s.kind)
  }

  /** Each tracked check has exactly one probe: in the map of its definition's kind, and running; there is no other;
      and only tracked checks are recorded as critical. */
  ghost predicate WellKept(t: Table) {
    && (forall h | h in t.checks :: KindOf(t.checks[h].hc.definition).Some?)
    && (forall s :: s in t.probes <==> IsSlotOf(t.checks, s))
    && (forall s | s in t.probes :: t.probes[s].running && t.probes[s].conf.kind == s.kind)
    && t.critical.Keys <= t.checks.Keys
  }

  /** The entry changes the kind of a tracked check and yet fills the field of the old kind. */
  predicate LeavesResidue(t: Table, c: HealthCheck) {
    var h := HashOf(c);
    && h in t.checks
    && var j := KindOf(t.checks[h].hc.definition);
       j.Some? && j != KindOf(c.definition) && Field(c.definition, j.value) != ""
  }

  lemma FirstKindIsTheKind(t: Table, h: string)
    requires WellKept(t) && h in t.checks
    ensures FirstKind(t.probes, h) == KindOf(t.checks[h].hc.definition)
  {
    assert forall k :: Slot(k, h) in t.probes <==> IsSlotOf(t.checks, Slot(k, h));
  }

  lemma KindFieldIsFilled(d: Definition)
    ensures KindOf(d).Some? ==> Field(d, KindOf(d).value) != ""
  {
  }

  lemma StopsTheOne(t: Table, h: string, d: Definition)
    requires WellKept(t) && h in t.checks
    ensures var s := Slot(KindOf(t.checks[h].hc.definition).value, h);
      && s in t.probes
      && StopExisting(t.probes, h, d)
         == Some(if Field(d, s.kind) == "" then t.probes - {s} else t.probes[s := t.probes[s].(running := false)])
  {
    FirstKindIsTheKind(t, h);
  }

  /** What updating the probes does to those of the hash, when they are in order and no residue is left. */
  lemma OneProbe(t: Table, h: string, d: Definition, conf: ProbeConf)
    requires WellKept(t) && KindOf(d) == Some(conf.kind)
    requires h in t.checks ==> var j := KindOf(t.checks[h].hc.definition).value; j == conf.kind || Field(d, j) == ""
    ensures var probes := UpdateProbes(t, h, d, conf);
      && (forall s :: s in probes <==> if s.hash == h then s.kind == conf.kind else s in t.probes)
      && (forall s | s in probes && s.hash != h :: probes[s] == t.probes[s])
      && var p := probes[Slot(conf.kind, h)];
         p.running && (p.conf == conf
                       || (p.conf.kind == conf.kind
                           && Slot(conf.kind, h) in t.probes && p == t.probes[Slot(conf.kind, h)]
                           && h in t.checks && KeepsProbe(p.conf, conf, t.checks[h].hc.definition, d)))
  {
    KindFieldIsFilled(d);
    if h in t.checks {
      StopsTheOne(t, h, d);
      assert forall i :: Slot(i, h) in t.probes <==> IsSlotOf(t.checks, Slot(i, h));
    } else {
      assert forall i :: !IsSlotOf(t.checks, Slot(i, h));
    }
  }

  /** A residue is a stopped probe left in the map of the old kind. */
  lemma Residue(t: Table, c: HealthCheck, minimum: int)
    requires WellKept(t) && Runnable(c) && LeavesResidue(t, c)
    ensures var s := Slot(KindOf(t.checks[HashOf(c)].hc.definition).value, HashOf(c));
            var probes := ResyncOne(t, c, minimum).probes;
      s in probes && !probes[s].running
  {
    StopsTheOne(t, HashOf(c), c.definition);
    assert !IsSlotOf(t.checks, Slot(KindOf(c.definition).value, HashOf(c)));
  }

  /** One entry keeps the probes in order exactly when it does not leave a residue. */
  lemma EntryKeepsOrder(t: Table, c: HealthCheck, minimum: int)
    requires WellKept(t)
    ensures WellKept(ResyncOne(t, c, minimum)) <==> !Runnable(c) || !LeavesResidue(t, c)
  {
    if Runnable(c) {
      if LeavesResidue(t, c) {
        Residue(t, c, minimum);
      } else {
        OneProbe(t, HashOf(c), c.definition, Wanted(c, minimum));
      }
    }
  }

  lemma {:induction false} SnapshotKeepsOrder(t: Table, list: seq<HealthCheck>, minimum: int)
    requires WellKept(t) && forall c | c in list :: SingleKind(c.definition)
    ensures WellKept(ResyncAll(t, list, minimum))
  {
    if list != [] {
      var front, c := list[..|list| - 1], list[|list| - 1];
      SnapshotKeepsOrder(t, front, minimum);
      EntryKeepsOrder(ResyncAll(t, front, minimum), c, minimum);
      KindFieldIsFilled(c.definition);
    }
  }

  lemma {:induction false} ListedAreTracked(t: Table, list: seq<HealthCheck>, minimum: int)
    ensures ResyncAll(t, list, minimum).checks.Keys == t.checks.Keys + Listed(list)
  {
    if list != [] {
      ListedAreTracked(t, list[..|list| - 1], minimum);
    }
  }

  lemma DropKeepsOrder(t: Table, gone: set<string>)
    requires WellKept(t)
    ensures WellKept(Drop(t, gone)) && Drop(t, gone).checks.Keys == t.checks.Keys - gone
  {
  }

  /** The hashes for which a probe is running. */
  function Running(t: Table): set<string> {
    set s | s in t.probes && t.probes[s].running :: s.hash
  }

  lemma ProbesAreOfChecks(t: Table)
    requires WellKept(t)
    ensures Running(t) == t.checks.Keys
  {
    forall h | h in t.checks ensures h in Running(t) {
      assert Slot(KindOf(t.checks[h].hc.definition).value, h) in t.probes;
    }
  }

  /** With single-kind definitions a resync leaves exactly the listed checks tracked, each with exactly one probe, of
      the kind of its latest definition and running. */
  lemma ResyncKeepsOrder(t: Table, list: seq<HealthCheck>, minimum: int)
    requires WellKept(t) && forall c | c in list :: SingleKind(c.definition)
    ensures var t' := Resynced(t, list, minimum);
      WellKept(t') && t'.checks.Keys == Listed(list) && Running(t') == Listed(list)
  {
    SnapshotKeepsOrder(t, list, minimum);
    ListedAreTracked(t, list, minimum);
    var t1 := ResyncAll(t, list, minimum);
    DropKeepsOrder(t1, t1.checks.Keys - Listed(list));
    ProbesAreOfChecks(Resynced(t, list, minimum));
  }

  /** Definitions with two fields filled do end up with the wrong probe. A TCP check that also gets an HTTP field
      leaves its stopped TCP probe behind; when the HTTP field goes away again the stopped probe is taken for the
      right one, and the HTTP probe goes on running in its place. */
  lemma TwoKindsEndWrong(tcpOnly: Definition, both: Definition)
    requires tcpOnly.http == "" && tcpOnly.tcp != "" && tcpOnly.grpc == "" && both == tcpOnly.(http := "http://a")
    ensures var first := HealthCheck("n", "c", "", PASSING, "", tcpOnly);
            var h := HashOf(first);
            var t0 := Table(map[], map[], map[]);
            var t1 := Resynced(t0, [first], 0);
            var t2 := Resynced(t1, [first.(definition := both)], 0);
            var t3 := Resynced(t2, [first], 0);
      && t1.probes.Keys == {Slot(TCP, h)} && t1.probes[Slot(TCP, h)].running
      && t3.checks[h].hc.definition == tcpOnly
      && Slot(TCP, h) in t3.probes && !t3.probes[Slot(TCP, h)].running
      && Slot(HTTP, h) in t3.probes && t3.probes[Slot(HTTP, h)].running
  {
    var first := HealthCheck("n", "c", "", PASSING, "", tcpOnly);
    var second := first.(definition := both);
    var h := HashOf(first);
    var t0 := Table(map[], map[], map[]);
    var t1 := Resynced(t0, [first], 0);
    var t2 := Resynced(t1, [second], 0);
    OnlyEntry(t0, first, 0);
    OnlyEntry(t1, second, 0);
    OnlyEntry(t2, first, 0);
    FirstStaysBehind(t1, h, both, Wanted(second, 0));
  }

  /** The HTTP probe is started, and the TCP probe is stopped but stays. */
  lemma FirstStaysBehind(t: Table, h: string, both: Definition, conf: ProbeConf)
    requires h in t.checks && t.probes.Keys == {Slot(TCP, h)} && conf.kind == HTTP && both.tcp != ""
    ensures UpdateProbes(t, h, both, conf) ==
      map[Slot(TCP, h) := t.probes[Slot(TCP, h)].(running := false), Slot(HTTP, h) := ProbeState(conf, true)]
  {
  }

  /** What ends it is a change of the address: the right probe is started anew, and the wrong one is gone. */
  lemma ChangedAddressRepairs(t: Table, first: HealthCheck, h: string, was: Definition, address: string)
    requires var d := first.definition;
      h == HashOf(first) && Runnable(first) && d.http == "" && d.tcp == address && d.grpc == ""
    requires t.checks.Keys == {h} && t.checks[h].hc.definition == was
    requires t.probes.Keys == {Slot(HTTP, h), Slot(TCP, h)} && t.probes[Slot(TCP, h)].conf.target != address
    ensures var t' := Resynced(t, [first], 0);
      && t'.probes.Keys == {Slot(TCP, h)}
      && t'.probes[Slot(TCP, h)].running && t'.probes[Slot(TCP, h)].conf.target == address
  {
    OnlyEntry(t, first, 0);
  }

  /** A new check runs as the first kind that its definition fills, at the address given for that. */
  lemma FirstFieldDecides(c: HealthCheck, minimum: int)
    requires c.checkID != "externalNodeHealth"
    requires c.definition.http != "" || c.definition.tcp != "" || c.definition.grpc != ""
    ensures var d := c.definition;
            var t := Resynced(Table(map[], map[], map[]), [c], minimum);
            var s := if d.http != "" then Slot(HTTP, HashOf(c)) else if d.tcp != "" then Slot(TCP, HashOf(c))
                     else Slot(GRPC, HashOf(c));
            var address := if d.http != "" then d.http else if d.tcp != "" then d.tcp else d.grpc;
      t.probes.Keys == {s} && t.probes[s].running && t.probes[s].conf.target == address
  {
    OnlyEntry(Table(map[], map[], map[]), c, minimum);
  }

  /** What is tracked after a resync: what is listed, has something to probe, and is not the check that the pings own.
      */
  lemma WhatIsTracked(t: Table, list: seq<HealthCheck>, minimum: int, h: string)
    ensures h in Resynced(t, list, minimum).checks
      <==> exists c :: c in list && HashOf(c) == h && c.checkID != "externalNodeHealth"
                       && (c.definition.http != "" || c.definition.tcp != "" || c.definition.grpc != "")
  {
    ListedAreTracked(t, list, minimum);
    ListedMeans(list, h);
    if h in Listed(list) {
      var i :| 0 <= i < |list| && Runnable(list[i]) && HashOf(list[i]) == h;
      assert list[i] in list;
    }
    if c :| c in list && Runnable(c) && HashOf(c) == h {
      var i :| 0 <= i < |list| && list[i] == c;
    }
  }

  /** A snapshot of one check when nothing else is tracked. */
  lemma OnlyEntry(t: Table, c: HealthCheck, minimum: int)
    requires Runnable(c) && t.checks.Keys <= {HashOf(c)}
    ensures var t' := Resynced(t, [c], minimum);
      && t'.checks == Track(t.checks, HashOf(c), c)
      && t'.probes == UpdateProbes(t, HashOf(c), c.definition, Wanted(c, minimum))
      && t'.checks.Keys == {HashOf(c)}
  {
    var list := [c];
    assert list[..|list| - 1] == [] && ResyncAll(t, [], minimum) == t;
    var t1 := ResyncAll(t, list, minimum);
    assert t1 == ResyncOne(t, c, minimum);
    assert Listed([c]) == {HashOf(c)};
    assert t1.checks.Keys - Listed([c]) == {};
    assert Drop(t1, {}).probes == t1.probes;
  }

  // ---------------------------------------------------------------- the probes are what the definitions ask for

  /** The probe is the one the definition asks for, but for headers that only the definition has. */
  predicate Matches(conf: ProbeConf, wanted: ProbeConf) {
    conf == wanted.(header := conf.header) && HeadersAlmostEqual(conf.header, wanted.header)
  }

  /** Every tracked check's probe matches its latest definition, with the interval clamped. */
  ghost predicate ProbesMatch(t: Table, minimum: int) {
    forall s | s in t.probes ::
      s.hash in t.checks && Matches(t.probes[s].conf, ConfFor(t.checks[s.hash].hc.definition, s.kind, minimum))
  }

  /** The same, spelled out: every value that a probe runs with is the one in the definition, but for an interval of
      zero, which stands for 30 seconds, or below the minimum; and no header but the library's own has another value.
      */
  ghost predicate IsBuiltFrom(p: ProbeConf, kind: Kind, d: Definition, minimum: int) {
    var asked := if d.interval == 0 then 30_000_000_000 else d.interval;
    var tls := TLS(d.tlsSkipVerify, d.tlsServerName);
    && p.kind == kind && p.timeout == d.timeout
    && p.interval == (if asked < minimum then minimum else asked)
    && match kind
       case HTTP =>
         && p.target == d.http && p.httpMethod == d.httpMethod && p.tls == Some(tls)
         && forall k | k in p.header && k != "User-Agent" && k != "Accept" ::
              p.header[k] == if k in d.header then d.header[k] else Nil
       case TCP => p.target == d.tcp && p.tls == None
       case GRPC => p.target == d.grpc && p.tls == if d.grpcUseTLS then Some(tls) else None
  }

  lemma MatchIsBuilt(p: ProbeConf, kind: Kind, d: Definition, minimum: int)
    requires Matches(p, ConfFor(d, kind, minimum)) && p.kind == kind
    ensures IsBuiltFrom(p, kind, d, minimum)
  {
    var wanted := ConfFor(d, kind, minimum);
    assert forall k | k in p.header && !AddedByLibrary(k) :: p.header[k] == HeaderAt(wanted.header, k);
  }

  lemma EntryKeepsMatch(t: Table, c: HealthCheck, minimum: int)
    requires WellKept(t) && ProbesMatch(t, minimum) && (Runnable(c) ==> !LeavesResidue(t, c))
    ensures ProbesMatch(ResyncOne(t, c, minimum), minimum)
  {
    if Runnable(c) {
      OneProbe(t, HashOf(c), c.definition, Wanted(c, minimum));
    }
  }

  lemma {:induction false} SnapshotKeepsMatch(t: Table, list: seq<HealthCheck>, minimum: int)
    requires WellKept(t) && ProbesMatch(t, minimum) && forall c | c in list :: SingleKind(c.definition)
    ensures ProbesMatch(ResyncAll(t, list, minimum), minimum)
  {
    if list != [] {
      var front, c := list[..|list| - 1], list[|list| - 1];
      SnapshotKeepsMatch(t, front, minimum);
      SnapshotKeepsOrder(t, front, minimum);
      KindFieldIsFilled(c.definition);
      EntryKeepsMatch(ResyncAll(t, front, minimum), c, minimum);
    }
  }

  ghost predicate DistinctHashes(list: seq<HealthCheck>) {
    forall i, j | 0 <= i < j < |list| && Runnable(list[i]) && Runnable(list[j]) :: HashOf(list[i]) != HashOf(list[j])
  }

  lemma FrontIsDistinct(front: seq<HealthCheck>, c: HealthCheck)
    requires DistinctHashes(front + [c])
    ensures DistinctHashes(front)
    ensures Runnable(c) ==> HashOf(c) !in Listed(front)
  {
    var list := front + [c];
    forall i, j | 0 <= i < j < |front| && Runnable(front[i]) && Runnable(front[j])
      ensures HashOf(front[i]) != HashOf(front[j])
    {
      assert list[i] == front[i] && list[j] == front[j];
    }
    ListedMeans(front, HashOf(c));
    forall i | 0 <= i < |front| && Runnable(front[i]) && Runnable(c) ensures HashOf(front[i]) != HashOf(c) {
      assert list[i] == front[i] && list[|front|] == c;
    }
  }

  lemma {:induction false} ListedMeans(list: seq<HealthCheck>, h: string)
    ensures h in Listed(list) <==> exists i :: 0 <= i < |list| && Runnable(list[i]) && HashOf(list[i]) == h
  {
    if list != [] {
      ListedMeans(list[..|list| - 1], h);
    }
  }

  /** Of distinct hashes, each listed check is tracked as listed, with the catalog's status and output. */
  lemma {:induction false} SnapshotIsTracked(t: Table, list: seq<HealthCheck>, minimum: int)
    requires DistinctHashes(list)
    ensures var checks := ResyncAll(t, list, minimum).checks;
      forall c | c in list && Runnable(c) :: HashOf(c) in checks && checks[HashOf(c)].hc == c
  {
    if list != [] {
      var front, last := list[..|list| - 1], list[|list| - 1];
      assert list == front + [last];
      FrontIsDistinct(front, last);
      SnapshotIsTracked(t, front, minimum);
      forall c | c in list && Runnable(c)
        ensures var checks := ResyncAll(t, list, minimum).checks; HashOf(c) in checks && checks[HashOf(c)].hc == c
      {
        if c != last {
          assert c in front;
          ListedMeans(front, HashOf(c));
        }
      }
    }
  }

  /** The counters of checks that were tracked before are kept, and new ones start at zero. */
  lemma {:induction false} CountersAreKept(t: Table, list: seq<HealthCheck>, minimum: int)
    ensures var checks := ResyncAll(t, list, minimum).checks;
      forall h | h in checks ::
        && checks[h].fails == (if h in t.checks then t.checks[h].fails else 0)
        && checks[h].succs == (if h in t.checks then t.checks[h].succs else 0)
  {
    if list != [] {
      CountersAreKept(t, list[..|list| - 1], minimum);
      ListedAreTracked(t, list[..|list| - 1], minimum);
    }
  }

  lemma {:induction false} CriticalIsKept(t: Table, list: seq<HealthCheck>, minimum: int)
    ensures ResyncAll(t, list, minimum).critical == t.critical
  {
    if list != [] {
      CriticalIsKept(t, list[..|list| - 1], minimum);
    }
  }

  /** The table agrees with a snapshot: it tracks exactly its checks, under the same definitions, with matching probes.
      Results, reverts and the library's header additions do not disturb this. */
  ghost predicate Settled(t: Table, list: seq<HealthCheck>, minimum: int) {
    && WellKept(t) && ProbesMatch(t, minimum)
    && t.checks.Keys == Listed(list)
    && forall c | c in list && Runnable(c) ::
         HashOf(c) in t.checks && t.checks[HashOf(c)].hc.definition == c.definition
  }

  /** The same probes, but for what the library adds to the headers they were given. */
  ghost predicate OnlyDecorated(t: Table, t': Table) {
    && t'.checks == t.checks && t'.critical == t.critical && t'.probes.Keys == t.probes.Keys
    && forall s | s in t.probes ::
         && t'.probes[s] == t.probes[s].(conf := t.probes[s].conf.(header := t'.probes[s].conf.header))
         && Decorates(t'.probes[s].conf.header, t.probes[s].conf.header)
  }

  /** That leaves a settled table settled, so that the next resync restarts nothing on its account. */
  lemma DecorationKeepsSettled(t: Table, t': Table, list: seq<HealthCheck>, minimum: int)
    requires Settled(t, list, minimum) && OnlyDecorated(t, t')
    ensures Settled(t', list, minimum)
  {
    forall s | s in t'.probes
      ensures s.hash in t'.checks
      ensures Matches(t'.probes[s].conf, ConfFor(t'.checks[s.hash].hc.definition, s.kind, minimum))
    {
      DecorationIsInvisible(t'.probes[s].conf.header, t.probes[s].conf.header,
                            ConfFor(t.checks[s.hash].hc.definition, s.kind, minimum).header);
    }
  }

  lemma SettledIsBuilt(t: Table, list: seq<HealthCheck>, minimum: int)
    requires Settled(t, list, minimum)
    ensures forall s | s in t.probes :: s.hash in t.checks && t.probes[s].running
              && IsBuiltFrom(t.probes[s].conf, s.kind, t.checks[s.hash].hc.definition, minimum)
  {
    forall s | s in t.probes
      ensures s.hash in t.checks && IsBuiltFrom(t.probes[s].conf, s.kind, t.checks[s.hash].hc.definition, minimum)
    {
      MatchIsBuilt(t.probes[s].conf, s.kind, t.checks[s.hash].hc.definition, minimum);
    }
  }

  /** A resync settles the table: each check of the snapshot is tracked as the catalog has it, keeps its counters, and
      has one running probe, whose target, method, TLS settings, timeout and clamped interval are those of its
      definition. */
  lemma ResyncSettles(t: Table, list: seq<HealthCheck>, minimum: int)
    requires WellKept(t) && ProbesMatch(t, minimum)
    requires DistinctHashes(list) && forall c | c in list :: SingleKind(c.definition)
    ensures var t' := Resynced(t, list, minimum);
      && Settled(t', list, minimum)
      && (forall c | c in list && Runnable(c) :: HashOf(c) in t'.checks && t'.checks[HashOf(c)].hc == c)
      && (forall h | h in t'.checks ::
            && t'.checks[h].fails == (if h in t.checks then t.checks[h].fails else 0)
            && t'.checks[h].succs == (if h in t.checks then t.checks[h].succs else 0))
      && (forall s | s in t'.probes :: s.hash in t'.checks && t'.probes[s].running
            && IsBuiltFrom(t'.probes[s].conf, s.kind, t'.checks[s.hash].hc.definition, minimum))
  {
    ResyncKeepsOrder(t, list, minimum);
    SnapshotKeepsMatch(t, list, minimum);
    SnapshotIsTracked(t, list, minimum);
    CountersAreKept(t, list, minimum);
    forall c | c in list && Runnable(c) ensures HashOf(c) in Listed(list) {
      ListedMeans(list, HashOf(c));
    }
    SettledIsBuilt(Resynced(t, list, minimum), list, minimum);
  }

  /** Resyncing a settled table with the same snapshot starts and stops nothing, and keeps every counter. */
  lemma ResyncIsIdempotent(t: Table, list: seq<HealthCheck>, minimum: int)
    requires Settled(t, list, minimum)
    ensures var t' := Resynced(t, list, minimum);
      && t'.probes == t.probes && t'.checks.Keys == t.checks.Keys && t'.critical == t.critical
      && forall h | h in t.checks :: t'.checks[h].fails == t.checks[h].fails && t'.checks[h].succs == t.checks[h].succs
  {
    PrefixChangesNoProbe(t, list, |list|, minimum);
    assert list[..|list|] == list;
    ListedAreTracked(t, list, minimum);
    CountersAreKept(t, list, minimum);
    var t1 := ResyncAll(t, list, minimum);
    assert t1.checks.Keys - Listed(list) == {};
    assert forall s | s in t.probes :: s.hash !in {};
  }

  lemma {:induction false} PrefixChangesNoProbe(t: Table, list: seq<HealthCheck>, n: nat, minimum: int)
    requires Settled(t, list, minimum) && n <= |list|
    ensures var t' := ResyncAll(t, list[..n], minimum);
      && t'.probes == t.probes && t'.critical == t.critical && t'.checks.Keys == t.checks.Keys
      && forall h | h in t.checks :: t'.checks[h].hc.definition == t.checks[h].hc.definition
  {
    if n > 0 {
      PrefixChangesNoProbe(t, list, n - 1, minimum);
      assert list[..n][..n - 1] == list[..n - 1];
      var c := list[n - 1];
      if Runnable(c) {
        ProbeIsKept(t, ResyncAll(t, list[..n - 1], minimum), c, minimum);
      }
    }
  }

  lemma ProbeIsKept(t: Table, t1: Table, c: HealthCheck, minimum: int)
    requires WellKept(t) && ProbesMatch(t, minimum) && Runnable(c)
    requires t1.probes == t.probes && t1.checks.Keys == t.checks.Keys
    requires HashOf(c) in t.checks && t.checks[HashOf(c)].hc.definition == c.definition
    requires t1.checks[HashOf(c)].hc.definition == c.definition
    ensures UpdateProbes(t1, HashOf(c), c.definition, Wanted(c, minimum)) == t.probes
  {
    assert Slot(KindOf(c.definition).value, HashOf(c)) in t.probes;
  }
}
