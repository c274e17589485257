/** agent.go: how an instance turns its list in the KV tree into the checks it runs; and what all instances together run
    after a pass of the leader. */
module Ownership {
  import opened Options
  import opened Keys
  import opened Definitions
  import opened Resync
  import opened Runner
  import opened Leader

  // ---------------------------------------------------------------- one instance

  /** The nodes of a list whose checks the instance runs: all of them. */
  function HealthNodes(w: WatchList): set<string> {
    (set n | n in w.nodes) + (set n | n in w.probes)
  }

  /** Those it pings. */
  function PingNodes(w: WatchList): set<string> {
    set n | n in w.probes
  }

  /** watchNodeList, formatting a list. */
  method FormatNodeLists(nodeList: WatchList) returns (healthNodes: set<string>, pingNodes: set<string>)
    ensures healthNodes == HealthNodes(nodeList) && pingNodes == PingNodes(nodeList)
    ensures forall n :: n in healthNodes <==> n in nodeList.nodes || n in nodeList.probes
    ensures forall n :: n in pingNodes <==> n in nodeList.probes
  {
    healthNodes, pingNodes := {}, {};
    for i := 0 to |nodeList.nodes|
      invariant healthNodes == (set n | n in nodeList.nodes[..i])
    {
      healthNodes := healthNodes + {nodeList.nodes[i]};
    }
    assert nodeList.nodes[..|nodeList.nodes|] == nodeList.nodes;
    for i := 0 to |nodeList.probes|
      invariant healthNodes == (set n | n in nodeList.nodes) + (set n | n in nodeList.probes[..i])
      invariant pingNodes == (set n | n in nodeList.probes[..i])
    {
      healthNodes, pingNodes := healthNodes + {nodeList.probes[i]}, pingNodes + {nodeList.probes[i]};
    }
    assert nodeList.probes[..|nodeList.probes|] == nodeList.probes;
  }

  /** A check is the instance's if its node is, but for the one the pinging side owns. */
  predicate IsOurs(c: HealthCheck, nodes: set<string>) {
    c.node in nodes && c.checkID != EXTERNAL_CHECK_NAME
  }

  function OurChecks(checks: seq<HealthCheck>, nodes: set<string>): seq<HealthCheck> {
    if checks == [] then []
    else
      var c := checks[|checks| - 1];
      OurChecks(checks[..|checks| - 1], nodes) + if IsOurs(c, nodes) then [c] else []
  }

  /** getHealthChecks; None is a failed query. */
  method GetHealthChecks(found: Option<seq<HealthCheck>>, nodes: set<string>) returns (ourChecks: seq<HealthCheck>)
    ensures ourChecks == if found == None then [] else OurChecks(found.value, nodes)
  {
    ourChecks := [];
    if found == None {
      return;
    }
    var checks := found.value;
    for i := 0 to |checks|
      invariant ourChecks == OurChecks(checks[..i], nodes)
    {
      assert checks[..i + 1][..i] == checks[..i];
      if checks[i].node in nodes && checks[i].checkID != EXTERNAL_CHECK_NAME {
        ourChecks := ourChecks + [checks[i]];
      }
    }
    assert checks[..|checks|] == checks;
  }

  /** The node set after a look at the KV entry: without an entry the old one stays. */
  function NodesAfter(ourNodes: set<string>, kv: Option<WatchList>): set<string> {
    match kv
    case None => ourNodes
    case Some(w) => HealthNodes(w)
  }

  /** The runner's table after a poll of the catalog: an instance that finds nothing of its own leaves it as it is. */
  function TableAfter(t: Table, checks: seq<HealthCheck>, nodes: set<string>, minimum: int): Table {
    var ours := OurChecks(checks, nodes);
    if nodes == {} || ours == [] then t else Resynced(t, ours, minimum)
  }

  /** The two goroutines of an instance that feed its runner. */
  class HealthWatcher {
    const runner: CheckRunner
    var ourNodes: set<string>

    constructor (runner: CheckRunner)
      ensures this.runner == runner && ourNodes == {}
    {
      this.runner, ourNodes := runner, {};
    }

    /** watchNodeList. */
    method ReadNodeList(kv: Option<WatchList>)
      modifies this
      ensures ourNodes == NodesAfter(old(ourNodes), kv)
    {
      if kv.Some? {
        var healthNodes, pingNodes := FormatNodeLists(kv.value);
        ourNodes := healthNodes;
      }
    }

    /** watchHealthChecks. */
    method Poll(found: Option<seq<HealthCheck>>)
      requires runner.InPlace() && runner.Valid() && this !in runner.checks.repr && this !in runner.probes.repr
      modifies runner`checksCritical, runner.checks.repr, runner.probes.repr
      ensures runner.InPlace() && runner.Valid()
      ensures runner.View() ==
        if found == None then old(runner.View())
        else TableAfter(old(runner.View()), found.value, ourNodes, runner.settings.minimumInterval)
    {
      if |ourNodes| == 0 {
        return;
      }
      var ourChecks := GetHealthChecks(found, ourNodes);
      if |ourChecks| == 0 {
        return;
      }
      runner.UpdateChecks(ourChecks);
    }
  }

  // ---------------------------------------------------------------- what an instance runs

  lemma {:induction false} OurChecksMeans(checks: seq<HealthCheck>, nodes: set<string>)
    ensures forall c :: c in OurChecks(checks, nodes) <==> c in checks && IsOurs(c, nodes)
  {
    if checks != [] {
      var front, last := checks[..|checks| - 1], checks[|checks| - 1];
      assert checks == front + [last];
      OurChecksMeans(front, nodes);
    }
  }

  /** The hashes of the checks that an instance with these nodes ought to run. */
  function Duty(checks: seq<HealthCheck>, nodes: set<string>): set<string> {
    Listed(OurChecks(checks, nodes))
  }

  lemma DutyMeans(checks: seq<HealthCheck>, nodes: set<string>, h: string)
    ensures h in Duty(checks, nodes) <==> exists c :: c in checks && c.node in nodes && Runnable(c) && HashOf(c) == h
  {
    var ours := OurChecks(checks, nodes);
    OurChecksMeans(checks, nodes);
    ListedMeans(ours, h);
    if c :| c in checks && c.node in nodes && Runnable(c) && HashOf(c) == h {
      assert c in ours;
      var i :| 0 <= i < |ours| && ours[i] == c;
    }
    if h in Duty(checks, nodes) {
      var i :| 0 <= i < |ours| && Runnable(ours[i]) && HashOf(ours[i]) == h;
      assert ours[i] in ours;
    }
  }

  /** The instance finds some check of its own, or has nothing running. */
  predicate Refreshes(t: Table, checks: seq<HealthCheck>, nodes: set<string>) {
    (exists c | c in checks :: c.node in nodes && c.checkID != "externalNodeHealth") || Running(t) == {}
  }

  lemma {:induction false} NoNodesNoChecks(checks: seq<HealthCheck>)
    ensures OurChecks(checks, {}) == []
  {
    if checks != [] {
      NoNodesNoChecks(checks[..|checks| - 1]);
    }
  }

  lemma FindsSome(checks: seq<HealthCheck>, nodes: set<string>)
    ensures OurChecks(checks, nodes) != []
            <==> exists c | c in checks :: c.node in nodes && c.checkID != "externalNodeHealth"
  {
    OurChecksMeans(checks, nodes);
    if OurChecks(checks, nodes) != [] {
      assert OurChecks(checks, nodes)[0] in OurChecks(checks, nodes);
    }
  }

  /** After a poll an instance runs exactly its duty, if and only if it found some check of its own or had nothing
      running. */
  lemma RunsItsDuty(t: Table, checks: seq<HealthCheck>, nodes: set<string>, minimum: int)
    requires WellKept(t) && forall c | c in checks :: SingleKind(c.definition)
    ensures var t' := TableAfter(t, checks, nodes, minimum);
      WellKept(t') && (Running(t') == Duty(checks, nodes) <==> Refreshes(t, checks, nodes))
  {
    NoNodesNoChecks(checks);
    OurChecksMeans(checks, nodes);
    FindsSome(checks, nodes);
    var ours := OurChecks(checks, nodes);
    if ours != [] {
      ResyncKeepsOrder(t, ours, minimum);
    }
  }

  // ---------------------------------------------------------------- all instances

  predicate SlashFreeNames(nodes: seq<Node>, checks: seq<HealthCheck>) {
    (forall i | 0 <= i < |nodes| :: NoSlash(nodes[i].name)) && (forall c | c in checks :: NoSlash(c.node))
  }

  /** The tables of the instances after each has read its list in the tree and polled the catalog. */
  function AfterPass(tables: map<string, Table>, tree: Tree, ourNodes: map<string, set<string>>,
                     checks: seq<HealthCheck>, minimum: int): map<string, Table>
    requires tables.Keys <= ourNodes.Keys
  {
    map id | id in tables :: TableAfter(tables[id], checks, NodesAfter(ourNodes[id], Get(tree, id)), minimum)
  }

  /** Each check on an external node runs in the instance that the node is assigned to and in no other instance there
      is; and no instance runs anything but checks of nodes on its list in the tree. */
  ghost predicate SolelyOwned(tables: map<string, Table>, nodes: seq<Node>, insts: seq<string>,
                              checks: seq<HealthCheck>)
    requires insts != []
  {
    && (forall i: nat, c, id | i < |nodes| && c in checks && Runnable(c) && c.node == nodes[i].name && id in tables ::
          HashOf(c) in Running(tables[id]) <==> id == insts[i % |insts|])
    && (forall id, h | id in tables && h in Running(tables[id]) :: id in insts
          && exists c :: c in checks && Runnable(c) && HashOf(c) == h && Lists(Assigned(nodes, insts, id), c.node))
  }

  lemma TreeAssigns(nodes: seq<Node>, insts: seq<string>, ourNodes: set<string>, id: string)
    requires id in insts
    ensures NodesAfter(ourNodes, Get(FullTree(nodes, insts), id)) == HealthNodes(Assigned(nodes, insts, id))
  {
    assert insts[..|insts|] == insts;
  }

  /** Who has a check on duty: the instance its node is assigned to. */
  lemma DutyIsSole(nodes: seq<Node>, insts: seq<string>, checks: seq<HealthCheck>, i: nat, c: HealthCheck, id: string)
    requires insts != [] && DistinctNames(nodes) && SlashFreeNames(nodes, checks)
    requires i < |nodes| && c in checks && Runnable(c) && c.node == nodes[i].name
    ensures HashOf(c) in Duty(checks, HealthNodes(Assigned(nodes, insts, id))) <==> id == insts[i % |insts|]
  {
    var mine := HealthNodes(Assigned(nodes, insts, id));
    DutyMeans(checks, mine, HashOf(c));
    NodeIsAssignedOnce(nodes, insts, i, id, false);
    NodeIsAssignedOnce(nodes, insts, i, id, true);
    if d :| d in checks && d.node in mine && Runnable(d) && HashOf(d) == HashOf(c) {
      HashDeterminesNode(d.node, d.serviceID, d.checkID, c.node, c.serviceID, c.checkID);
    }
  }

  lemma DutyIsListed(nodes: seq<Node>, insts: seq<string>, checks: seq<HealthCheck>, id: string, h: string)
    requires h in Duty(checks, HealthNodes(Assigned(nodes, insts, id)))
    ensures exists c :: c in checks && Runnable(c) && HashOf(c) == h && Lists(Assigned(nodes, insts, id), c.node)
  {
    DutyMeans(checks, HealthNodes(Assigned(nodes, insts, id)), h);
  }

  /** Without an entry in the tree the old list stays. */
  lemma UncountedInstanceKeepsItsNodes(nodes: seq<Node>, insts: seq<string>, ourNodes: set<string>, id: string)
    requires id !in insts
    ensures NodesAfter(ourNodes, Get(FullTree(nodes, insts), id)) == ourNodes
  {
    assert insts[..|insts|] == insts;
  }

  /** An instance that the leader does not count falls silent exactly when the list it keeps has no check any more,
      and it had nothing running. */
  lemma FallsSilent(t: Table, checks: seq<HealthCheck>, nodes: set<string>, minimum: int)
    requires WellKept(t) && forall c | c in checks :: SingleKind(c.definition)
    ensures Running(TableAfter(t, checks, nodes, minimum)) == {}
            <==> Refreshes(t, checks, nodes) && Duty(checks, nodes) == {}
  {
    RunsItsDuty(t, checks, nodes, minimum);
    NoNodesNoChecks(checks);
    FindsSome(checks, nodes);
  }

  /** What sole ownership takes of one instance. */
  predicate Yields(t: Table, checks: seq<HealthCheck>, nodes: seq<Node>, insts: seq<string>, ourNodes: set<string>,
                   id: string) {
    if id in insts then Refreshes(t, checks, HealthNodes(Assigned(nodes, insts, id)))
    else Refreshes(t, checks, ourNodes) && Duty(checks, ourNodes) == {}
  }

  /** What an instance ought to run. */
  function Ought(checks: seq<HealthCheck>, nodes: seq<Node>, insts: seq<string>, id: string): set<string> {
    if id in insts then Duty(checks, HealthNodes(Assigned(nodes, insts, id))) else {}
  }

  lemma RunsWhatItOught(t: Table, ourNodes: set<string>, nodes: seq<Node>, insts: seq<string>, checks: seq<HealthCheck>,
                        id: string, minimum: int)
    requires WellKept(t) && forall c | c in checks :: SingleKind(c.definition)
    ensures var t' := TableAfter(t, checks, NodesAfter(ourNodes, Get(FullTree(nodes, insts), id)), minimum);
      Running(t') == Ought(checks, nodes, insts, id) <==> Yields(t, checks, nodes, insts, ourNodes, id)
  {
    if id in insts {
      TreeAssigns(nodes, insts, ourNodes, id);
      RunsItsDuty(t, checks, HealthNodes(Assigned(nodes, insts, id)), minimum);
    } else {
      UncountedInstanceKeepsItsNodes(nodes, insts, ourNodes, id);
      FallsSilent(t, checks, ourNodes, minimum);
    }
  }

  /** Sole ownership, end to end. After a fully committed pass of the leader, once every instance has read its list
      and polled the catalog, each HTTP, TCP or GRPC check on an external node runs in exactly one instance and
      nothing else runs anywhere, if and only if every instance that the leader counts finds some check of its own or
      had nothing running, and every other one finds no check on the list it keeps and had nothing running. (An
      instance that finds none does not resync, and goes on with what it had; and one without an entry in the tree
      keeps its old list.) */
  lemma SoleOwnership(tables: map<string, Table>, ourNodes: map<string, set<string>>, nodes: seq<Node>,
                      insts: seq<string>, checks: seq<HealthCheck>, minimum: int)
    requires insts != [] && tables.Keys <= ourNodes.Keys && forall id | id in insts :: id in tables
    requires DistinctNames(nodes) && SlashFreeNames(nodes, checks)
    requires (forall id | id in tables :: WellKept(tables[id])) && forall c | c in checks :: SingleKind(c.definition)
    ensures SolelyOwned(AfterPass(tables, FullTree(nodes, insts), ourNodes, checks, minimum), nodes, insts, checks)
      <==> && (forall id | id in insts :: Refreshes(tables[id], checks, HealthNodes(Assigned(nodes, insts, id))))
           && (forall id | id in tables && id !in insts ::
                 Refreshes(tables[id], checks, ourNodes[id]) && Duty(checks, ourNodes[id]) == {})
  {
    var after := AfterPass(tables, FullTree(nodes, insts), ourNodes, checks, minimum);
    forall id | id in tables
      ensures Running(after[id]) == Ought(checks, nodes, insts, id)
              <==> Yields(tables[id], checks, nodes, insts, ourNodes[id], id)
    {
      RunsWhatItOught(tables[id], ourNodes[id], nodes, insts, checks, id, minimum);
    }
    RightIsSole(after, nodes, insts, checks);
    if id :| id in tables && !Yields(tables[id], checks, nodes, insts, ourNodes[id], id) {
      assert Running(after[id]) != Ought(checks, nodes, insts, id);
    }
  }

  /** Sole ownership means that every instance runs exactly what it ought to. */
  lemma RightIsSole(after: map<string, Table>, nodes: seq<Node>, insts: seq<string>, checks: seq<HealthCheck>)
    requires insts != [] && DistinctNames(nodes) && SlashFreeNames(nodes, checks)
    ensures SolelyOwned(after, nodes, insts, checks)
            <==> forall id | id in after :: Running(after[id]) == Ought(checks, nodes, insts, id)
  {
    if forall id | id in after :: Running(after[id]) == Ought(checks, nodes, insts, id) {
      RightTablesAreSole(after, nodes, insts, checks);
    }
    if SolelyOwned(after, nodes, insts, checks) {
      forall id | id in after ensures Running(after[id]) == Ought(checks, nodes, insts, id) {
        SoleTableIsRight(after, nodes, insts, checks, id);
      }
    }
  }

  lemma RightTablesAreSole(after: map<string, Table>, nodes: seq<Node>, insts: seq<string>, checks: seq<HealthCheck>)
    requires insts != [] && DistinctNames(nodes) && SlashFreeNames(nodes, checks)
    requires forall id | id in after :: Running(after[id]) == Ought(checks, nodes, insts, id)
    ensures SolelyOwned(after, nodes, insts, checks)
  {
    forall i: nat, c, id | i < |nodes| && c in checks && Runnable(c) && c.node == nodes[i].name && id in after
      ensures HashOf(c) in Running(after[id]) <==> id == insts[i % |insts|]
    {
      DutyIsSole(nodes, insts, checks, i, c, id);
    }
    forall id, h | id in after && h in Running(after[id])
      ensures id in insts
      ensures exists c :: c in checks && Runnable(c) && HashOf(c) == h && Lists(Assigned(nodes, insts, id), c.node)
    {
      assert id in insts;
      DutyIsListed(nodes, insts, checks, id, h);
    }
  }

  lemma SoleTableIsRight(after: map<string, Table>, nodes: seq<Node>, insts: seq<string>, checks: seq<HealthCheck>,
                         id: string)
    requires insts != [] && DistinctNames(nodes) && SlashFreeNames(nodes, checks)
    requires SolelyOwned(after, nodes, insts, checks) && id in after
    ensures Running(after[id]) == Ought(checks, nodes, insts, id)
  {
    if id in insts {
      var mine := HealthNodes(Assigned(nodes, insts, id));
      forall h ensures h in Running(after[id]) <==> h in Duty(checks, mine) {
        DutyMeans(checks, mine, h);
        if h in Duty(checks, mine) {
          var c :| c in checks && c.node in mine && Runnable(c) && HashOf(c) == h;
          ListedNodes(nodes, insts, id, c.node);
          var i: nat :| i < |nodes| && nodes[i].name == c.node && insts[i % |insts|] == id;
        }
      }
    }
  }

  lemma OneNodeForA(n: Node)
    ensures n.name in HealthNodes(Assigned([n], ["a", "b"], "a"))
    ensures HealthNodes(Assigned([n], ["a", "b"], "b")) == {}
  {
    var insts := ["a", "b"];
    assert [n][0] == n && 0 % |insts| == 0;
    NodeIsAssigned([n], insts, 0);
    forall name ensures name !in HealthNodes(Assigned([n], insts, "b")) {
      ListedNodes([n], insts, "b", name);
      assert forall i: nat | i < |[n]| :: insts[i % |insts|] == "a";
    }
  }

  lemma FirstCheckRuns(c: HealthCheck, minimum: int)
    requires Runnable(c) && SingleKind(c.definition)
    ensures var t := Resynced(Table(map[], map[], map[]), [c], minimum); WellKept(t) && HashOf(c) in Running(t)
  {
    ResyncKeepsOrder(Table(map[], map[], map[]), [c], minimum);
    ListedMeans([c], HashOf(c));
    assert [c][0] == c;
  }

  /** Two instances run the same check: "b" had the only node, now "a" has it, and "b" has an empty list. */
  lemma BothRunIt(n: Node, c: HealthCheck, minimum: int)
    requires Runnable(c) && c.node == n.name && SingleKind(c.definition)
    ensures var none := Table(map[], map[], map[]);
            var tables := map["a" := none, "b" := Resynced(none, [c], minimum)];
            var after := AfterPass(tables, FullTree([n], ["a", "b"]), map["a" := {}, "b" := {n.name}], [c], minimum);
      HashOf(c) in Running(after["a"]) && HashOf(c) in Running(after["b"])
  {
    var none, insts := Table(map[], map[], map[]), ["a", "b"];
    OneNodeForA(n);
    FirstCheckRuns(c, minimum);
    RunsOnItsNode(none, [n], insts, {}, "a", HealthNodes(Assigned([n], insts, "a")), c, minimum);
    TreeAssigns([n], insts, {n.name}, "b");
    OurChecksMeans([c], {});
  }

  /** Or: "b" had the only node and is no longer counted by the leader, and keeps its list. */
  lemma UncountedRunsItToo(n: Node, c: HealthCheck, minimum: int)
    requires Runnable(c) && c.node == n.name && SingleKind(c.definition)
    ensures var none := Table(map[], map[], map[]);
            var tables := map["a" := none, "b" := Resynced(none, [c], minimum)];
            var after := AfterPass(tables, FullTree([n], ["a"]), map["a" := {}, "b" := {n.name}], [c], minimum);
      HashOf(c) in Running(after["a"]) && HashOf(c) in Running(after["b"])
  {
    var none, insts := Table(map[], map[], map[]), ["a"];
    var t := Resynced(none, [c], minimum);
    assert [n][0] == n && insts[0 % |insts|] == "a";
    NodeIsAssigned([n], insts, 0);
    RunsOnItsNode(none, [n], insts, {}, "a", HealthNodes(Assigned([n], insts, "a")), c, minimum);
    FirstCheckRuns(c, minimum);
    RunsOnItsNode(t, [n], insts, {n.name}, "b", {n.name}, c, minimum);
  }

  /** An instance that is left with these nodes runs a check on one of them. */
  lemma RunsOnItsNode(t: Table, nodes: seq<Node>, insts: seq<string>, ourNodes: set<string>, id: string,
                      mine: set<string>, c: HealthCheck, minimum: int)
    requires WellKept(t) && Runnable(c) && c.node in mine && SingleKind(c.definition)
    requires mine == if id in insts then HealthNodes(Assigned(nodes, insts, id)) else ourNodes
    ensures var t' := TableAfter(t, [c], NodesAfter(ourNodes, Get(FullTree(nodes, insts), id)), minimum);
      HashOf(c) in Running(t')
  {
    if id in insts {
      TreeAssigns(nodes, insts, ourNodes, id);
    } else {
      UncountedInstanceKeepsItsNodes(nodes, insts, ourNodes, id);
    }
    OurChecksMeans([c], mine);
    assert c in OurChecks([c], mine);
    RunsItsDuty(t, [c], mine, minimum);
    DutyMeans([c], mine, HashOf(c));
  }
}
