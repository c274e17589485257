/** leader.go: dividing the external nodes among the ESM instances and writing the division to the KV tree. */
module Leader {
  import opened Definitions

  datatype Node = Node(name: string, meta: map<string, string>)

  datatype WatchList = WatchList(nodes: seq<string>, probes: seq<string>)

  type Tree = map<string, WatchList>

  predicate IsProbe(n: Node) {
    "external-probe" in n.meta && n.meta["external-probe"] == "true"
  }

  predicate DistinctNames(nodes: seq<Node>) {
    forall i, j | 0 <= i < j < |nodes| :: nodes[i].name != nodes[j].name
  }

  predicate Distinct(s: seq<string>) {
    forall i, j | 0 <= i < j < |s| :: s[i] != s[j]
  }

  /** A Go map of slices: an absent key reads as the empty slice. */
  function Lookup(m: map<string, seq<string>>, id: string): seq<string> {
    if id in m then m[id] else []
  }

  // ---------------------------------------------------------------- nodeLists

  /** The names given to instance `id`: its probe nodes, or its other nodes, in input order. */
  function Share(nodes: seq<Node>, insts: seq<string>, id: string, probes: bool): seq<string> {
    if nodes == [] || insts == [] then []
    else
      var i := |nodes| - 1;
      var rest := Share(nodes[..i], insts, id, probes);
      if insts[i % |insts|] == id && IsProbe(nodes[i]) == probes then rest + [nodes[i].name] else rest
  }

  /** nodeLists: round robin over the instances, appending into two maps. */
  method NodeLists(nodes: seq<Node>, insts: seq<string>)
    returns (healthNodes: map<string, seq<string>>, pingNodes: map<string, seq<string>>)
    ensures forall id :: Lookup(healthNodes, id) == Share(nodes, insts, id, false)
    ensures forall id :: Lookup(pingNodes, id) == Share(nodes, insts, id, true)
  {
    healthNodes, pingNodes := map[], map[];
    if |insts| == 0 {
      return;
    }
    for i := 0 to |nodes|
      invariant forall id :: Lookup(healthNodes, id) == Share(nodes[..i], insts, id, false)
      invariant forall id :: Lookup(pingNodes, id) == Share(nodes[..i], insts, id, true)
    {
      var agentID := insts[i % |insts|];
      assert nodes[..i + 1][..i] == nodes[..i];
      if IsProbe(nodes[i]) {
        pingNodes := pingNodes[agentID := Lookup(pingNodes, agentID) + [nodes[i].name]];
        continue;
      }
      healthNodes := healthNodes[agentID := Lookup(healthNodes, agentID) + [nodes[i].name]];
    }
    assert nodes[..|nodes|] == nodes;
  }

  /** The input positions whose nodes `Share` picks. */
  ghost function Positions(nodes: seq<Node>, insts: seq<string>, id: string, probes: bool): seq<nat> {
    if nodes == [] || insts == [] then []
    else
      var i := |nodes| - 1;
      var rest := Positions(nodes[..i], insts, id, probes);
      if insts[i % |insts|] == id && IsProbe(nodes[i]) == probes then rest + [i] else rest
  }

  /** Position i falls to the instance, with that probe flag. */
  predicate FallsTo(nodes: seq<Node>, insts: seq<string>, id: string, probes: bool, i: nat)
    requires insts != [] && i < |nodes|
  {
    insts[i % |insts|] == id && IsProbe(nodes[i]) == probes
  }

  /** The positions p, in order and once each, are those that fall to the instance, and s has their names. */
  ghost predicate IsRoundRobin(nodes: seq<Node>, insts: seq<string>, id: string, probes: bool,
                               p: seq<nat>, s: seq<string>)
    requires insts != []
  {
    && |p| == |s|
    && (forall a, b | 0 <= a < b < |p| :: p[a] < p[b])
    && (forall a | 0 <= a < |p| :: p[a] < |nodes| && s[a] == nodes[p[a]].name)
    && (forall i: nat :: i in p <==> i < |nodes| && FallsTo(nodes, insts, id, probes, i))
  }

  lemma RoundRobinGrows(front: seq<Node>, last: Node, insts: seq<string>, id: string, probes: bool,
                        p: seq<nat>, s: seq<string>)
    requires insts != [] && IsRoundRobin(front, insts, id, probes, p, s)
    ensures var nodes := front + [last];
      if FallsTo(nodes, insts, id, probes, |front|)
      then IsRoundRobin(nodes, insts, id, probes, p + [|front|], s + [last.name])
      else IsRoundRobin(nodes, insts, id, probes, p, s)
  {
    var nodes := front + [last];
    forall i: nat | i < |front|
      ensures nodes[i] == front[i] && FallsTo(nodes, insts, id, probes, i) == FallsTo(front, insts, id, probes, i)
    {
    }
    forall a | 0 <= a < |p| ensures p[a] < |front| {
    }
  }

  /** `Share` is exactly the round-robin positions of `id` with the right probe flag, in input order, once each. */
  lemma {:induction false} ShareIsRoundRobin(nodes: seq<Node>, insts: seq<string>, id: string, probes: bool)
    requires insts != []
    ensures IsRoundRobin(nodes, insts, id, probes, Positions(nodes, insts, id, probes), Share(nodes, insts, id, probes))
  {
    if nodes != [] {
      var i := |nodes| - 1;
      ShareIsRoundRobin(nodes[..i], insts, id, probes);
      RoundRobinGrows(nodes[..i], nodes[i], insts, id, probes,
                      Positions(nodes[..i], insts, id, probes), Share(nodes[..i], insts, id, probes));
      assert nodes == nodes[..i] + [nodes[i]];
    }
  }

  lemma NamedOnce(nodes: seq<Node>, insts: seq<string>, id: string, probes: bool, p: seq<nat>, s: seq<string>, i: nat)
    requires insts != [] && i < |nodes| && IsRoundRobin(nodes, insts, id, probes, p, s)
    requires FallsTo(nodes, insts, id, probes, i)
    ensures nodes[i].name in s
  {
    var a :| 0 <= a < |p| && p[a] == i;
    assert s[a] == nodes[i].name;
  }

  /** Every node name is in the list of its round-robin instance and flag ... */
  lemma NodeIsAssigned(nodes: seq<Node>, insts: seq<string>, i: nat)
    requires insts != [] && i < |nodes|
    ensures nodes[i].name in Share(nodes, insts, insts[i % |insts|], IsProbe(nodes[i]))
  {
    var id := insts[i % |insts|];
    ShareIsRoundRobin(nodes, insts, id, IsProbe(nodes[i]));
    NamedOnce(nodes, insts, id, IsProbe(nodes[i]), Positions(nodes, insts, id, IsProbe(nodes[i])),
              Share(nodes, insts, id, IsProbe(nodes[i])), i);
  }

  /** ... and, names being distinct, in no other list and only once in that one. */
  lemma NodeIsAssignedOnce(nodes: seq<Node>, insts: seq<string>, i: nat, id: string, probes: bool)
    requires insts != [] && i < |nodes| && DistinctNames(nodes)
    ensures var meta := nodes[i].meta;
      nodes[i].name in Share(nodes, insts, id, probes)
      <==> id == insts[i % |insts|] && probes == ("external-probe" in meta && meta["external-probe"] == "true")
    ensures Distinct(Share(nodes, insts, id, probes))
  {
    ShareIsRoundRobin(nodes, insts, id, probes);
    NodeIsAssigned(nodes, insts, i);
    var p, s := Positions(nodes, insts, id, probes), Share(nodes, insts, id, probes);
    if nodes[i].name in s {
      var a :| 0 <= a < |s| && s[a] == nodes[i].name;
      assert p[a] == i && i in p;
    }
    forall a, b | 0 <= a < b < |s| ensures s[a] != s[b] {
      assert p[a] < p[b];
    }
  }

  function Load(nodes: seq<Node>, insts: seq<string>, id: string): nat {
    |Share(nodes, insts, id, false)| + |Share(nodes, insts, id, true)|
  }

  lemma CeilStep(m: nat, n: nat, j: nat)
    requires j < n
    ensures (m + n - j) / n == (m + n - 1 - j) / n + (if m % n == j then 1 else 0)
  {
    var q, r := m / n, m % n;
    assert m == q * n + r;
    DivOffset(q, n, r + n - j);
    DivOffset(q, n, r + n - 1 - j);
    if r < j {
      DivOffset(0, n, r + n - j);
      DivOffset(0, n, r + n - 1 - j);
    } else {
      assert r + n - j == n + (r - j);
      DivOffset(1, n, r - j);
      if r > j {
        DivOffset(1, n, r - 1 - j);
      }
    }
  }

  lemma DivOffset(q: nat, n: nat, x: nat)
    requires n > 0
    ensures (q * n + x) / n == q + x / n
    ensures x < n ==> (q * n + x) / n == q
  {
    var d, r := x / n, x % n;
    assert q * n + x == (q + d) * n + r;
    DivUnique(q * n + x, n, q + d, r);
  }

  lemma DivUnique(m: nat, n: nat, q: nat, r: nat)
    requires n > 0 && r < n && m == q * n + r
    ensures m / n == q
  {
    var q', r' := m / n, m % n;
    assert m == q' * n + r';
    Gap(q, q', n);
  }

  lemma MulSum(a: int, b: int, n: nat)
    ensures (a + b) * n == a * n + b * n
    ensures b >= 0 ==> b * n >= 0
  {
  }

  /** Multiples of n are at least n apart. */
  lemma Gap(a: int, b: int, n: nat)
    ensures a < b ==> a * n + n <= b * n
    ensures b < a ==> b * n + n <= a * n
  {
    if a < b {
      MulSum(a, b - a, n);
      MulSum(1, b - a - 1, n);
    } else if b < a {
      MulSum(b, a - b, n);
      MulSum(1, a - b - 1, n);
    }
  }

  /** With distinct instance ids, the instance at position j carries ceil((|nodes| - j) / |insts|) nodes. */
  lemma {:induction false} LoadIsCeiling(nodes: seq<Node>, insts: seq<string>, j: nat)
    requires j < |insts| && Distinct(insts)
    ensures Load(nodes, insts, insts[j]) == (|nodes| + |insts| - 1 - j) / |insts|
  {
    var n := |insts|;
    if nodes == [] {
      DivUnique(n - 1 - j, n, 0, n - 1 - j);
    } else {
      var i := |nodes| - 1;
      LoadIsCeiling(nodes[..i], insts, j);
      CeilStep(i, n, j);
      assert insts[i % n] == insts[j] <==> i % n == j;
    }
  }

  /** Balance: the combined loads of any two instances differ by at most one. */
  lemma LoadsAreBalanced(nodes: seq<Node>, insts: seq<string>, j: nat, k: nat)
    requires j <= k < |insts| && Distinct(insts)
    ensures Load(nodes, insts, insts[k]) <= Load(nodes, insts, insts[j]) <= Load(nodes, insts, insts[k]) + 1
  {
    var n := |insts|;
    LoadIsCeiling(nodes, insts, j);
    LoadIsCeiling(nodes, insts, k);
    QuotientsClose(|nodes| + n - 1 - j, |nodes| + n - 1 - k, n);
  }

  lemma QuotientsClose(a: nat, b: nat, n: nat)
    requires n > 0 && b <= a < b + n
    ensures b / n <= a / n <= b / n + 1
  {
    DivUnique(b, n, b / n, b % n);
    var q, r := b / n, b % n;
    if r + (a - b) < n {
      DivUnique(a, n, q, r + (a - b));
    } else {
      assert (q + 1) * n == q * n + n;
      DivUnique(a, n, q + 1, r + (a - b) - n);
    }
  }

  // ---------------------------------------------------------------- the list order

  /** The bytewise string order that sort.Slice is given. */
  predicate Less(a: string, b: string) {
    b != [] && (a == [] || a[0] < b[0] || (a[0] == b[0] && Less(a[1..], b[1..])))
  }

  lemma {:induction false} LessIsStrictOrder(a: string, b: string, c: string)
    ensures !Less(a, a)
    ensures Less(a, b) && Less(b, c) ==> Less(a, c)
  {
    if a != [] {
      LessIsStrictOrder(a[1..], if b != [] then b[1..] else [], if c != [] then c[1..] else []);
    }
  }

  predicate SortedByName(nodes: seq<Node>) {
    forall i, j | 0 <= i < j < |nodes| :: Less(nodes[i].name, nodes[j].name)
  }

  /** The sorted list is determined by the set of nodes in it: two leaders that see the same nodes
      (and, likewise, the same instances) start from the same list and so compute the same shares. */
  lemma {:induction false} SortedListIsCanonical(a: seq<Node>, b: seq<Node>)
    requires SortedByName(a) && SortedByName(b)
    requires forall n :: n in a <==> n in b
    ensures a == b
  {
    assert b != [] ==> b[0] in b;
    if a != [] {
      assert a[0] in a;
      assert a[0] in b && b[0] in a;
      var i, j :| 0 <= i < |b| && b[i] == a[0] && 0 <= j < |a| && a[j] == b[0];
      LessIsStrictOrder(a[0].name, b[0].name, a[0].name);
      assert a[0] == b[0];
      forall n ensures n in a[1..] <==> n in b[1..] {
        TailMembers(a, n);
        TailMembers(b, n);
      }
      SortedListIsCanonical(a[1..], b[1..]);
    }
  }

  lemma TailMembers(a: seq<Node>, n: Node)
    requires a != [] && SortedByName(a)
    ensures n in a[1..] <==> n in a && n != a[0]
  {
    LessIsStrictOrder(a[0].name, a[0].name, a[0].name);
    if n in a && n != a[0] {
      var i :| 0 <= i < |a| && a[i] == n;
      assert a[1..][i - 1] == n;
    }
  }

  // ---------------------------------------------------------------- the KV tree

  datatype KvOp = DeleteTree | SetList(id: string, list: WatchList)

  function ApplyOp(t: Tree, op: KvOp): Tree {
    match op
    case DeleteTree => map[]
    case SetList(id, list) => t[id := list]
  }

  function ApplyOps(t: Tree, ops: seq<KvOp>): Tree {
    if ops == [] then t else ApplyOp(ApplyOps(t, ops[..|ops| - 1]), ops[|ops| - 1])
  }

  /** What becomes of one transaction: applied and acknowledged, applied with the reply lost, or not applied. */
  datatype Outcome = Acked | Unacked | Dropped

  /** The first n transactions to come are acknowledged. */
  predicate AckedFirst(outcomes: seq<Outcome>, n: nat) {
    forall i | 0 <= i < n && i < |outcomes| :: outcomes[i] == Acked
  }

  function Later(outcomes: seq<Outcome>, n: nat): seq<Outcome> {
    if n <= |outcomes| then outcomes[n..] else []
  }

  /** How many of the transactions to come are not acknowledged. */
  function Failures(outcomes: seq<Outcome>): nat {
    if outcomes == [] then 0 else (if outcomes[0] == Acked then 0 else 1) + Failures(outcomes[1..])
  }

  lemma {:induction false} AckedAreNoFailures(outcomes: seq<Outcome>, n: nat)
    requires AckedFirst(outcomes, n)
    ensures Failures(Later(outcomes, n)) == Failures(outcomes)
  {
    if n > 0 && outcomes != [] {
      AckedAreNoFailures(outcomes[1..], n - 1);
      assert Later(outcomes[1..], n - 1) == Later(outcomes, n);
    }
  }

  /** The KV tree below the node-list path. Only the leader writes it; the outcomes are the outside world's. */
  class KvStore {
    var tree: Tree
    var outcomes: seq<Outcome>
    ghost var states: seq<Tree>  // the tree after each committed transaction

    constructor (tree: Tree, outcomes: seq<Outcome>)
      ensures this.tree == tree && this.outcomes == outcomes && states == []
    {
      this.tree, this.outcomes, states := tree, outcomes, [];
    }

    /** commitOps: true exactly when the transaction was applied and acknowledged. Consul takes no more than
        64 operations at a time. */
    method CommitOps(ops: seq<KvOp>) returns (ok: bool)
      requires |ops| <= 64
      modifies this
      ensures ok <==> AckedFirst(old(outcomes), 1)
      ensures ok ==> tree == ApplyOps(old(tree), ops)
      ensures || (tree == old(tree) && states == old(states))
              || (tree == ApplyOps(old(tree), ops) && states == old(states) + [tree])
      ensures outcomes == Later(old(outcomes), 1)
    {
      var outcome := if outcomes == [] then Acked else outcomes[0];
      outcomes := if outcomes == [] then [] else outcomes[1..];
      if outcome != Dropped {
        tree := ApplyOps(tree, ops);
        states := states + [tree];
      }
      ok := outcome == Acked;
    }
  }

  function Assigned(nodes: seq<Node>, insts: seq<string>, id: string): WatchList {
    WatchList(Share(nodes, insts, id, false), Share(nodes, insts, id, true))
  }

  /** The tree that holds the lists of the first k instances of one computed assignment. */
  function PrefixTree(nodes: seq<Node>, insts: seq<string>, k: nat): Tree
    requires k <= |insts|
  {
    map id | id in insts[..k] :: Assigned(nodes, insts, id)
  }

  function FullTree(nodes: seq<Node>, insts: seq<string>): Tree {
    PrefixTree(nodes, insts, |insts|)
  }

  ghost predicate IsPassState(t: Tree, nodes: seq<Node>, insts: seq<string>) {
    exists k: nat | k <= |insts| :: t == PrefixTree(nodes, insts, k)
  }

  /** The tree is a prefix of the assignment computed from some lists of distinct nodes. */
  ghost predicate IsAssignmentPrefix(t: Tree) {
    exists nodes, insts :: DistinctNames(nodes) && IsPassState(t, nodes, insts)
  }

  predicate Lists(w: WatchList, name: string) {
    name in w.nodes || name in w.probes
  }

  /** No node is on two lists, of one instance or of two, nor twice on one. */
  ghost predicate Disjoint(t: Tree) {
    && (forall a, b, name | a in t && b in t && Lists(t[a], name) && Lists(t[b], name) :: a == b)
    && (forall a | a in t :: Distinct(t[a].nodes) && Distinct(t[a].probes))
    && (forall a, name | a in t && name in t[a].nodes :: name !in t[a].probes)
  }

  lemma ListedNodes(nodes: seq<Node>, insts: seq<string>, id: string, name: string)
    requires insts != [] && DistinctNames(nodes)
    ensures Lists(Assigned(nodes, insts, id), name)
            <==> exists i: nat :: i < |nodes| && nodes[i].name == name && insts[i % |insts|] == id
  {
    forall probes | name in Share(nodes, insts, id, probes)
      ensures exists i: nat :: i < |nodes| && nodes[i].name == name && insts[i % |insts|] == id
    {
      ShareIsRoundRobin(nodes, insts, id, probes);
      var s, p := Share(nodes, insts, id, probes), Positions(nodes, insts, id, probes);
      var a :| 0 <= a < |s| && s[a] == name;
      assert p[a] in p;
    }
    if i: nat :| i < |nodes| && nodes[i].name == name && insts[i % |insts|] == id {
      NodeIsAssigned(nodes, insts, i);
    }
  }

  /** Every prefix of an assignment is disjoint. */
  lemma PrefixIsDisjoint(t: Tree)
    requires IsAssignmentPrefix(t)
    ensures Disjoint(t)
  {
    var nodes: seq<Node>, insts: seq<string> :| DistinctNames(nodes) && IsPassState(t, nodes, insts);
    var k: nat :| k <= |insts| && t == PrefixTree(nodes, insts, k);
    forall a, b, name | a in t && b in t && Lists(t[a], name) && Lists(t[b], name) ensures a == b {
      ListedNodes(nodes, insts, a, name);
      ListedNodes(nodes, insts, b, name);
    }
    forall a, probes | a in t ensures Distinct(Share(nodes, insts, a, probes)) {
      if nodes != [] {
        NodeIsAssignedOnce(nodes, insts, 0, a, probes);
      }
    }
    forall a, name | a in t && name in t[a].nodes ensures name !in t[a].probes {
      ListedNodes(nodes, insts, a, name);
      var i: nat :| i < |nodes| && nodes[i].name == name && insts[i % |insts|] == a;
      NodeIsAssignedOnce(nodes, insts, i, a, false);
      NodeIsAssignedOnce(nodes, insts, i, a, true);
    }
  }

  // ---------------------------------------------------------------- computeWatchedNodes

  /** The operations that set the lists of instances i .. j. */
  ghost function Sets(nodes: seq<Node>, insts: seq<string>, i: nat, j: nat): seq<KvOp>
    requires i <= j <= |insts|
  {
    if i == j then [] else Sets(nodes, insts, i, j - 1) + [SetList(insts[j - 1], Assigned(nodes, insts, insts[j - 1]))]
  }

  lemma PrefixGrows(nodes: seq<Node>, insts: seq<string>, k: nat)
    requires k < |insts|
    ensures PrefixTree(nodes, insts, k)[insts[k] := Assigned(nodes, insts, insts[k])] == PrefixTree(nodes, insts, k + 1)
  {
    assert insts[..k + 1] == insts[..k] + [insts[k]];
  }

  lemma ApplySnoc(t: Tree, ops: seq<KvOp>, op: KvOp)
    ensures ApplyOps(t, ops + [op]) == ApplyOp(ApplyOps(t, ops), op)
  {
    assert (ops + [op])[..|ops|] == ops;
  }

  /** Setting lists i .. j on top of the first i gives the first j. */
  lemma {:induction false} SetsExtendPrefix(t: Tree, nodes: seq<Node>, insts: seq<string>, i: nat, j: nat)
    requires i <= j <= |insts| && t == PrefixTree(nodes, insts, i)
    ensures ApplyOps(t, Sets(nodes, insts, i, j)) == PrefixTree(nodes, insts, j)
  {
    if i < j {
      var ops, last := Sets(nodes, insts, i, j - 1), SetList(insts[j - 1], Assigned(nodes, insts, insts[j - 1]));
      calc {
        ApplyOps(t, Sets(nodes, insts, i, j));
        ApplyOps(t, ops + [last]);
        { ApplySnoc(t, ops, last); }
        ApplyOp(ApplyOps(t, ops), last);
        { SetsExtendPrefix(t, nodes, insts, i, j - 1); }
        PrefixTree(nodes, insts, j - 1)[insts[j - 1] := last.list];
        { PrefixGrows(nodes, insts, j - 1); }
        PrefixTree(nodes, insts, j);
      }
    }
  }

  /** Deleting the tree first makes the rest independent of what was there. */
  lemma {:induction false} DeleteFirst(t: Tree, ops: seq<KvOp>)
    ensures ApplyOps(t, [DeleteTree] + ops) == ApplyOps(map[], ops)
  {
    var all := [DeleteTree] + ops;
    if ops == [] {
      assert all[..|all| - 1] == [];
    } else {
      DeleteFirst(t, ops[..|ops| - 1]);
      assert all[..|all| - 1] == [DeleteTree] + ops[..|ops| - 1];
    }
  }

  /** The operations held back once the lists of instances `sent` .. `j` are queued. */
  ghost function Queued(nodes: seq<Node>, insts: seq<string>, sent: nat, j: nat): seq<KvOp>
    requires sent <= j <= |insts|
  {
    (if sent == 0 then [DeleteTree] else []) + Sets(nodes, insts, sent, j)
  }

  lemma QueuedGrows(nodes: seq<Node>, insts: seq<string>, sent: nat, j: nat)
    requires sent <= j < |insts|
    ensures Queued(nodes, insts, sent, j + 1)
            == Queued(nodes, insts, sent, j) + [SetList(insts[j], Assigned(nodes, insts, insts[j]))]
  {
  }

  lemma QueuedReachesPrefix(t: Tree, nodes: seq<Node>, insts: seq<string>, sent: nat, j: nat)
    requires sent <= j <= |insts|
    requires sent > 0 ==> t == PrefixTree(nodes, insts, sent)
    ensures ApplyOps(t, Queued(nodes, insts, sent, j)) == PrefixTree(nodes, insts, j)
  {
    SetsExtendPrefix(PrefixTree(nodes, insts, sent), nodes, insts, sent, j);
    if sent == 0 {
      DeleteFirst(t, Sets(nodes, insts, 0, j));
      assert PrefixTree(nodes, insts, 0) == map[];
    } else {
      assert Queued(nodes, insts, sent, j) == Sets(nodes, insts, sent, j);
    }
  }

  /** Since `tree0` and `states0`, only states of this pass have been committed. */
  ghost predicate OnlyThisPass(kv: KvStore, tree0: Tree, states0: seq<Tree>, nodes: seq<Node>, insts: seq<string>)
    reads kv
  {
    && (kv.tree == tree0 || IsPassState(kv.tree, nodes, insts))
    && states0 <= kv.states
    && forall i | |states0| <= i < |kv.states| :: IsPassState(kv.states[i], nodes, insts)
  }

  /** The first `made` of these outcomes were met, and all were acknowledged. */
  ghost predicate Met(kv: KvStore, outcomes: seq<Outcome>, made: nat)
    reads kv
  {
    AckedFirst(outcomes, made) && kv.outcomes == Later(outcomes, made)
  }

  /** One commit of what is queued takes the tree from the first `sent` lists to the first `j`, if it is applied. */
  method CommitQueued(kv: KvStore, ops: seq<KvOp>, ghost nodes: seq<Node>, ghost insts: seq<string>,
                      ghost sent: nat, ghost j: nat, ghost made: nat,
                      ghost tree0: Tree, ghost states0: seq<Tree>, ghost outcomes0: seq<Outcome>)
    returns (ok: bool)
    requires sent <= j <= |insts| && |ops| <= MAX_TXN_OPS
    requires ops == Queued(nodes, insts, sent, j)
    requires sent > 0 ==> kv.tree == PrefixTree(nodes, insts, sent)
    requires OnlyThisPass(kv, tree0, states0, nodes, insts) && Met(kv, outcomes0, made)
    modifies kv
    ensures ok ==> kv.tree == PrefixTree(nodes, insts, j)
    ensures OnlyThisPass(kv, tree0, states0, nodes, insts)
    ensures if ok then Met(kv, outcomes0, made + 1) else !AckedFirst(outcomes0, made + 1)
    ensures Failures(kv.outcomes) + (if ok then 0 else 1) == Failures(outcomes0)
  {
    QueuedReachesPrefix(kv.tree, nodes, insts, sent, j);
    OneMoreAcked(outcomes0, made);
    AckedAreNoFailures(outcomes0, made);
    ok := kv.CommitOps(ops);
    if ok {
      AckedAreNoFailures(outcomes0, made + 1);
    }
  }

  lemma OneMoreAcked(outcomes: seq<Outcome>, n: nat)
    ensures AckedFirst(outcomes, n + 1) <==> AckedFirst(outcomes, n) && AckedFirst(Later(outcomes, n), 1)
    ensures Later(Later(outcomes, n), 1) == Later(outcomes, n + 1)
    ensures !AckedFirst(Later(outcomes, n), 1) ==> Failures(Later(outcomes, n + 1)) == Failures(Later(outcomes, n)) - 1
  {
    if n < |outcomes| {
      assert Later(outcomes, n)[0] == outcomes[n] && Later(outcomes, n)[1..] == Later(outcomes, n + 1);
    }
  }

  /** How many full transactions the tree's deletion and n lists make, and how many operations are left. */
  function FullOnes(n: nat): nat {
    if n == 0 then 0 else FullOnes(n - 1) + if LeftOver(n - 1) + 1 < MAX_TXN_OPS then 0 else 1
  }

  function LeftOver(n: nat): (m: nat)
    ensures m < MAX_TXN_OPS
  {
    if n == 0 then 1 else if LeftOver(n - 1) + 1 < MAX_TXN_OPS then LeftOver(n - 1) + 1 else 0
  }

  /** How many transactions a pass for n instances makes: the full ones, and a last one. */
  function Commits(n: nat): nat {
    FullOnes(n) + 1
  }

  /** One operation for the deletion and one for each instance, 64 at a time. */
  lemma {:induction false} CommitsMeans(n: nat)
    ensures Commits(n) == (n + 1) / 64 + 1 && LeftOver(n) == (n + 1) % 64
  {
    if n > 0 {
      CommitsMeans(n - 1);
    }
  }

  lemma {:induction false} FullOnesGrow(j: nat, n: nat)
    requires j <= n
    ensures FullOnes(j) <= FullOnes(n)
  {
    if j < n {
      FullOnesGrow(j, n - 1);
    }
  }

  lemma FewerAcked(outcomes: seq<Outcome>, j: nat, n: nat)
    requires j < n && LeftOver(j) + 1 == MAX_TXN_OPS && !AckedFirst(outcomes, FullOnes(j) + 1)
    ensures !AckedFirst(outcomes, Commits(n))
  {
    FullOnesGrow(j, n);
  }

  /** After j lists. */
  ghost predicate PassSoFar(kv: KvStore, ops: seq<KvOp>, nodes: seq<Node>, insts: seq<string>, sent: nat, j: nat,
                            tree0: Tree, states0: seq<Tree>, outcomes0: seq<Outcome>)
    reads kv
  {
    && sent <= j <= |insts| && ops == Queued(nodes, insts, sent, j) && |ops| == LeftOver(j)
    && (sent > 0 ==> kv.tree == PrefixTree(nodes, insts, sent))
    && OnlyThisPass(kv, tree0, states0, nodes, insts) && Met(kv, outcomes0, FullOnes(j))
  }

  /** One more list; a full transaction is committed. */
  method AddList(kv: KvStore, ops: seq<KvOp>, op: KvOp, ghost nodes: seq<Node>, ghost insts: seq<string>,
                 ghost sent: nat, ghost j: nat,
                 ghost tree0: Tree, ghost states0: seq<Tree>, ghost outcomes0: seq<Outcome>)
    returns (ok: bool, ops': seq<KvOp>, ghost sent': nat)
    requires PassSoFar(kv, ops, nodes, insts, sent, j, tree0, states0, outcomes0) && j < |insts|
    requires op == SetList(insts[j], Assigned(nodes, insts, insts[j]))
    modifies kv
    ensures ok ==> PassSoFar(kv, ops', nodes, insts, sent', j + 1, tree0, states0, outcomes0)
    ensures !ok ==>
      && OnlyThisPass(kv, tree0, states0, nodes, insts) && !AckedFirst(outcomes0, Commits(|insts|))
      && Failures(kv.outcomes) + 1 == Failures(outcomes0)
  {
    QueuedGrows(nodes, insts, sent, j);
    ok, ops', sent' := true, ops + [op], sent;
    if |ops'| >= MAX_TXN_OPS {
      ok := CommitQueued(kv, ops', nodes, insts, sent, j + 1, FullOnes(j), tree0, states0, outcomes0);
      ops', sent' := [], j + 1;
      if !ok {
        FewerAcked(outcomes0, j, |insts|);
      }
    }
  }

  /** One pass: delete the tree and set every instance's list, in transactions of at most 64 operations,
      giving up at the first one that is not acknowledged. It succeeds exactly when all of them are. */
  method RewriteLists(kv: KvStore, nodes: seq<Node>, insts: seq<string>) returns (ok: bool)
    modifies kv
    ensures ok <==> AckedFirst(old(kv.outcomes), Commits(|insts|))
    ensures ok ==> kv.tree == FullTree(nodes, insts)
    ensures OnlyThisPass(kv, old(kv.tree), old(kv.states), nodes, insts)
    ensures Failures(kv.outcomes) + (if ok then 0 else 1) == Failures(old(kv.outcomes))
  {
    var healthNodes, pingNodes := NodeLists(nodes, insts);
    var ops := [DeleteTree];
    ghost var sent := 0;
    for j := 0 to |insts|
      invariant PassSoFar(kv, ops, nodes, insts, sent, j, old(kv.tree), old(kv.states), old(kv.outcomes))
    {
      var id := insts[j];
      var op := SetList(id, WatchList(Lookup(healthNodes, id), Lookup(pingNodes, id)));
      ok, ops, sent := AddList(kv, ops, op, nodes, insts, sent, j, old(kv.tree), old(kv.states), old(kv.outcomes));
      if !ok {
        return;
      }
    }
    ok := CommitQueued(kv, ops, nodes, insts, sent, |insts|, FullOnes(|insts|),
                       old(kv.tree), old(kv.states), old(kv.outcomes));
  }

  /** What can wake the leader's loop. */
  datatype Wake = NewNodes(nodes: seq<Node>) | NewInstances(insts: seq<string>) | Retry

  function LatestNodes(nodes: seq<Node>, wakes: seq<Wake>): seq<Node> {
    if wakes == [] then nodes
    else match wakes[|wakes| - 1]
      case NewNodes(ns) => ns
      case _ => LatestNodes(nodes, wakes[..|wakes| - 1])
  }

  function LatestInstances(insts: seq<string>, wakes: seq<Wake>): seq<string> {
    if wakes == [] then insts
    else match wakes[|wakes| - 1]
      case NewInstances(ids) => ids
      case _ => LatestInstances(insts, wakes[..|wakes| - 1])
  }

  /** The node lists come from the catalog, where a node name is a key. */
  predicate DistinctLists(nodes: seq<Node>, wakes: seq<Wake>) {
    DistinctNames(nodes) && forall i | 0 <= i < |wakes| :: wakes[i].NewNodes? ==> DistinctNames(wakes[i].nodes)
  }

  /** The wake-ups since the last one that was not a retry. */
  function RetriesAtEnd(wakes: seq<Wake>): nat {
    if wakes == [] || !wakes[|wakes| - 1].Retry? then 0 else RetriesAtEnd(wakes[..|wakes| - 1]) + 1
  }

  /** One wake-up. A retry that is not due does nothing. Any other makes a pass for the latest lists, if there is an
      instance, and arms a retry exactly if there is none or a transaction of the pass is not acknowledged. */
  method WakeUp(kv: KvStore, wake: Wake, nodes: seq<Node>, insts: seq<string>, armed: bool)
    returns (nodes': seq<Node>, insts': seq<string>, armed': bool)
    modifies kv
    ensures nodes' == (if wake.NewNodes? then wake.nodes else nodes)
    ensures insts' == (if wake.NewInstances? then wake.insts else insts)
    ensures OnlyThisPass(kv, old(kv.tree), old(kv.states), nodes', insts')
    ensures (wake.Retry? && !armed) || insts' == [] ==>
      kv.tree == old(kv.tree) && kv.states == old(kv.states) && kv.outcomes == old(kv.outcomes)
    ensures armed' <==>
      (!wake.Retry? || armed) && (insts' == [] || !AckedFirst(old(kv.outcomes), Commits(|insts'|)))
    ensures (!wake.Retry? || armed) && !armed' ==> insts' != [] && kv.tree == FullTree(nodes', insts')
    ensures Failures(kv.outcomes) + (if armed' && insts' != [] then 1 else 0) == Failures(old(kv.outcomes))
  {
    nodes', insts', armed' := nodes, insts, armed;
    match wake {
      case NewNodes(ns) => nodes' := ns;
      case NewInstances(ids) => insts' := ids;
      case Retry =>
        if !armed {
          return;  // a nil timer never fires
        }
    }
    armed' := false;
    if |insts'| == 0 {
      armed' := true;
      return;
    }
    var ok := RewriteLists(kv, nodes', insts');
    if !ok {
      armed' := true;
    }
  }

  /** computeWatchedNodes, for any finite sequence of wake-ups. Whatever the node and instance lists become and
      whichever transactions fail, applied or not, every committed tree is a prefix of one computed assignment;
      and when no retry is pending the tree is the full assignment of the latest lists. None is pending, if there are
      instances, when transactions do not fail, or there were more retries in the end than transactions that failed. */
  method ComputeWatchedNodes(kv: KvStore, firstNodes: seq<Node>, firstInstances: seq<string>, wakes: seq<Wake>)
    returns (retryArmed: bool)
    requires DistinctLists(firstNodes, wakes)
    modifies kv
    ensures old(kv.states) <= kv.states
    ensures forall i | |old(kv.states)| <= i < |kv.states| ::
              IsAssignmentPrefix(kv.states[i]) && Disjoint(kv.states[i])
    ensures kv.tree == old(kv.tree) || IsAssignmentPrefix(kv.tree)
    ensures !retryArmed ==>
      var insts := LatestInstances(firstInstances, wakes);
      insts != [] && kv.tree == FullTree(LatestNodes(firstNodes, wakes), insts)
    ensures LatestInstances(firstInstances, wakes) != [] ==>
      && (wakes != [] && Failures(old(kv.outcomes)) == 0 ==> !retryArmed)
      && (RetriesAtEnd(wakes) > Failures(old(kv.outcomes)) ==> !retryArmed)
  {
    var externalNodes, healthyInstances := firstNodes, firstInstances;
    retryArmed := true;  // the first pass does not wait
    for w := 0 to |wakes|
      invariant externalNodes == LatestNodes(firstNodes, wakes[..w])
      invariant healthyInstances == LatestInstances(firstInstances, wakes[..w])
      invariant DistinctNames(externalNodes)
      invariant old(kv.states) <= kv.states
      invariant forall i | |old(kv.states)| <= i < |kv.states| :: IsAssignmentPrefix(kv.states[i])
      invariant kv.tree == old(kv.tree) || IsAssignmentPrefix(kv.tree)
      invariant !retryArmed ==> healthyInstances != [] && kv.tree == FullTree(externalNodes, healthyInstances)
      invariant Failures(kv.outcomes) <= Failures(old(kv.outcomes))
      invariant retryArmed && healthyInstances != [] ==>
        && (w > 0 ==> Failures(kv.outcomes) < Failures(old(kv.outcomes)))
        && Failures(kv.outcomes) + RetriesAtEnd(wakes[..w]) <= Failures(old(kv.outcomes))
    {
      assert wakes[..w + 1][..w] == wakes[..w];
      externalNodes, healthyInstances, retryArmed :=
        WakeUp(kv, wakes[w], externalNodes, healthyInstances, retryArmed);
    }
    assert wakes[..|wakes|] == wakes;
    forall i | |old(kv.states)| <= i < |kv.states| ensures Disjoint(kv.states[i]) {
      PrefixIsDisjoint(kv.states[i]);
    }
  }
}
