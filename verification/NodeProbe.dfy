/** coordinate.go, agent.go: pinging the external nodes, and the failure clock each of them has in the KV store. */
module NodeProbe {
  import opened Options
  import opened Definitions
  import opened Store

  const NODE_ALIVE_STATUS := "Node alive or reachable"
  const NODE_CRITICAL_STATUS := "Node not live or unreachable"

  const NO_DEFINITION := Definition("", map[], "", false, "", "", "", false, 0, 0, "", 0)

  /** KVPath, NodeReconnectTimeout and NodeHealthRefreshInterval. */
  datatype ProbeConfig = ProbeConfig(kvPath: string, reconnectTimeout: int, refreshInterval: int)

  /** The key whose value says since when a node has been failing. */
  function TrackKey(cfg: ProbeConfig, node: string): Key {
    KvKey(cfg.kvPath + "probes/" + node)
  }

  function HealthKey(node: string): Key {
    CheckKey(node, EXTERNAL_CHECK_NAME)
  }

  lemma TrackKeysDiffer(cfg: ProbeConfig, m: string, n: string)
    requires TrackKey(cfg, m) == TrackKey(cfg, n)
    ensures m == n
  {
    var prefix := cfg.kvPath + "probes/";
    assert (prefix + m)[|prefix|..] == m && (prefix + n)[|prefix|..] == n;
  }

  // ---------------------------------------------------------------- the debounce

  /** lastKnownStatus. */
  datatype LastKnown = LastKnown(status: string, time: int)

  /** shouldUpdateNodeStatus: unknown, expired, or different. */
  predicate ShouldUpdate(known: map<string, LastKnown>, node: string, status: string, ttl: int, now: int) {
    node !in known || now - known[node].time >= ttl || status != known[node].status
  }

  // ---------------------------------------------------------------- the transactions

  function SetHealth(node: string, status: string, output: string): Op {
    Set(HealthKey(node), CheckVal(HealthCheck(node, EXTERNAL_CHECK_NAME, "", status, output, NO_DEFINITION)))
  }

  /** updateHealthyNodeTxn: the clock is cleared, if one was seen, together with the check's update. */
  function HealthyOps(cfg: ProbeConfig, node: string, kv: Option<Entry>): seq<Op> {
    (if kv.Some? then [DeleteCas(TrackKey(cfg, node), kv.value.index)] else [])
    + [SetHealth(node, PASSING, NODE_ALIVE_STATUS)]
  }

  /** updateFailedNodeTxn, while the node is kept: the clock is started, if none was seen. */
  function FailedOps(cfg: ProbeConfig, node: string, kv: Option<Entry>, at: int): seq<Op> {
    (if kv.None? then [AnyOp.Set(TrackKey(cfg, node), Stamp(at))] else [])
    + [SetHealth(node, CRITICAL, NODE_CRITICAL_STATUS)]
  }

  /** updateFailedNodeTxn, when the node is given up: the clock and the node are deleted together, as they were read. */
  function ReapOps(cfg: ProbeConfig, node: string, kv: Entry, found: Entries): seq<Op> {
    [DeleteCas(TrackKey(cfg, node), kv.index)]
    + if NodeKey(node) in found then [DeleteCas(NodeKey(node), found[NodeKey(node)].index)] else []
  }

  /** The clock that was seen has run out. */
  predicate Expired(cfg: ProbeConfig, kv: Option<Entry>, at: int) {
    kv.Some? && kv.value.val.Stamp? && at - kv.value.val.time > cfg.reconnectTimeout
  }

  predicate Succeeded(reply: Reply) {
    reply.Reply? && reply.errors == [] && reply.ok
  }

  // ---------------------------------------------------------------- one ping

  /** The server, and what the agent remembers to have reported. */
  datatype Prober = Prober(server: Server, known: map<string, LastKnown>)

  /** When a ping's result is debounced, acted on, and remembered. */
  datatype Times = Times(seen: int, decided: int, done: int)

  /** Send a transaction, and remember the status if it is known to have succeeded. */
  function Report(p: Prober, node: string, status: string, ops: seq<Op>, t: Times): Prober {
    var (s, reply) := Submit(p.server, ops, t.decided);
    Prober(s, if Succeeded(reply) then p.known[node := LastKnown(status, t.done)] else p.known)
  }

  function HealthyPing(p: Prober, cfg: ProbeConfig, node: string, kv: Option<Entry>, t: Times): Prober {
    if !ShouldUpdate(p.known, node, PASSING, cfg.refreshInterval, t.seen) then p
    else Report(p, node, PASSING, HealthyOps(cfg, node, kv), t)
  }

  function FailedPing(p: Prober, cfg: ProbeConfig, node: string, kv: Option<Entry>, t: Times): Prober {
    if !ShouldUpdate(p.known, node, CRITICAL, cfg.refreshInterval, t.seen) then p
    else if Expired(cfg, kv, t.decided) then
      var (s, found) := Ask(p.server, Only(NodeKey(node)));
      if found == None then p.(server := s)
      else Report(p.(server := s), node, CRITICAL, ReapOps(cfg, node, kv.value, found.value), t)
    else Report(p, node, CRITICAL, FailedOps(cfg, node, kv, t.decided), t)
  }

  /** What a read of the clock is taken for: an error counts as no clock. */
  function Seen(found: Option<Entries>, k: Key): Option<Entry> {
    if found.Some? then Get(found.value, k) else None
  }

  /** runNodePing: read the clock, ping, report. */
  function Ping(p: Prober, cfg: ProbeConfig, node: string, alive: bool, t: Times): Prober {
    var (s, found) := Ask(p.server, Only(TrackKey(cfg, node)));
    var kv := Seen(found, TrackKey(cfg, node));
    if alive then HealthyPing(p.(server := s), cfg, node, kv, t) else FailedPing(p.(server := s), cfg, node, kv, t)
  }

  // ---------------------------------------------------------------- safe reaping

  /** Commit i deletes the node for a reason: the clock was there, as it had been read, with a start that had run out
      when the decision was made; and neither it nor the node had been touched since they were read. */
  ghost predicate ReapSafe(cfg: ProbeConfig, trace: seq<Event>, i: nat, op: Op)
    requires i < |trace| && trace[i].Commit? && op.DeleteCas? && op.key.NodeKey?
  {
    var k := TrackKey(cfg, op.key.name);
    && Justified(trace, i, op)
    && k in trace[i].pre && Expired(cfg, Some(trace[i].pre[k]), trace[i].at)
    && Justified(trace, i, DeleteCas(k, trace[i].pre[k].index))
  }

  /** Every deletion of a node in the history is safe, or came from a server that takes the deletion of an absent clock
      for done, and found it absent. */
  ghost predicate ReapsSafe(cfg: ProbeConfig, w: World) {
    forall i, op | 0 <= i < |w.trace| && w.trace[i].Commit? && op in w.trace[i].ops
                   && op.DeleteCas? && op.key.NodeKey? ::
      ReapSafe(cfg, w.trace, i, op) || (w.lenientDelete && TrackKey(cfg, op.key.name) !in w.trace[i].pre)
  }

  lemma ReapSafeLasts(cfg: ProbeConfig, trace: seq<Event>, longer: seq<Event>, i: nat, op: Op)
    requires i < |trace| && trace <= longer && trace[i].Commit? && op.DeleteCas? && op.key.NodeKey?
    requires ReapSafe(cfg, trace, i, op)
    ensures ReapSafe(cfg, longer, i, op)
  {
    JustifiedLasts(trace, longer, i, op);
    var k := TrackKey(cfg, op.key.name);
    JustifiedLasts(trace, longer, i, DeleteCas(k, trace[i].pre[k].index));
  }

  /** Only a new commit that deletes a node can spoil the history. */
  lemma HistoryStaysSafe(cfg: ProbeConfig, w: World, w': World)
    requires ReapsSafe(cfg, w) && w.trace <= w'.trace && w'.lenientDelete == w.lenientDelete
    requires forall i, op | |w.trace| <= i < |w'.trace| && w'.trace[i].Commit? && op in w'.trace[i].ops
               && op.DeleteCas? && op.key.NodeKey? ::
               ReapSafe(cfg, w'.trace, i, op) || (w'.lenientDelete && TrackKey(cfg, op.key.name) !in w'.trace[i].pre)
    ensures ReapsSafe(cfg, w')
  {
    forall i, op | 0 <= i < |w'.trace| && w'.trace[i].Commit? && op in w'.trace[i].ops
                   && op.DeleteCas? && op.key.NodeKey?
      ensures ReapSafe(cfg, w'.trace, i, op) || (w'.lenientDelete && TrackKey(cfg, op.key.name) !in w'.trace[i].pre)
    {
      if i < |w.trace| {
        assert w'.trace[i] == w.trace[i];
        if ReapSafe(cfg, w.trace, i, op) {
          ReapSafeLasts(cfg, w.trace, w'.trace, i, op);
        }
      }
    }
  }

  lemma FetchKeepsReapsSafe(cfg: ProbeConfig, w: World, turn: Turn, s: Scope)
    requires Good(w) && ReapsSafe(cfg, w)
    ensures ReapsSafe(cfg, FetchStep(w, turn, s).0)
  {
    FetchStaysGood(w, turn, s);
    ForeignStepsStaySound(w, turn.writes);
    HistoryStaysSafe(cfg, w, FetchStep(w, turn, s).0);
  }

  predicate DeletesNoNode(ops: seq<Op>) {
    forall op | op in ops :: !(op.DeleteCas? && op.key.NodeKey?)
  }

  lemma TxnKeepsReapsSafe(cfg: ProbeConfig, w: World, turn: Turn, ops: seq<Op>, at: int)
    requires Good(w) && ReapsSafe(cfg, w) && (forall op | op in ops :: FromRead(w.trace, op)) && DeletesNoNode(ops)
    ensures ReapsSafe(cfg, TxnStep(w, turn, ops, at).0)
  {
    TxnStaysGood(w, turn, ops, at);
    ForeignStepsStaySound(w, turn.writes);
    HistoryStaysSafe(cfg, w, TxnStep(w, turn, ops, at).0);
  }

  lemma ForeignStepsStaySafe(cfg: ProbeConfig, w: World, writes: seq<Write>)
    requires Sound(w) && ReapsSafe(cfg, w)
    ensures ReapsSafe(cfg, ForeignSteps(w, writes))
  {
    ForeignStepsStaySound(w, writes);
    HistoryStaysSafe(cfg, w, ForeignSteps(w, writes));
  }

  /** The transaction that reaps a node is safe whenever it commits. */
  lemma ReapKeepsReapsSafe(cfg: ProbeConfig, w: World, turn: Turn, node: string, kv: Entry, j: int, found: Entries,
                           at: int)
    requires Good(w) && ReapsSafe(cfg, w) && Found(w.trace, j, TrackKey(cfg, node), kv) && Expired(cfg, Some(kv), at)
    requires forall op | op in ReapOps(cfg, node, kv, found) :: FromRead(w.trace, op)
    ensures ReapsSafe(cfg, TxnStep(w, turn, ReapOps(cfg, node, kv, found), at).0)
  {
    var ops := ReapOps(cfg, node, kv, found);
    ForeignStepsStaySound(w, turn.writes);
    ForeignStepsStaySafe(cfg, w, turn.writes);
    TxnIsJustified(w, turn, ops, at);
    var w1 := ForeignSteps(w, turn.writes);
    var w' := TxnStep(w, turn, ops, at).0;
    if w' != w1 {
      ReapCommitIsSafe(cfg, w1, w', node, kv, j, found, at);
      HistoryStaysSafe(cfg, w1, w');
    }
  }

  lemma TxnIsJustified(w: World, turn: Turn, ops: seq<Op>, at: int)
    requires Good(w) && forall op | op in ops :: FromRead(w.trace, op)
    ensures var w1, w' := ForeignSteps(w, turn.writes), TxnStep(w, turn, ops, at).0;
      && w'.lenientDelete == w1.lenientDelete
      && (w' == w1 || (w'.trace == w1.trace + [Commit(ops, w1.entries, at)]
                       && CommitJustified(w'.trace, |w1.trace|, w1.lenientDelete)))
  {
    TxnStaysGood(w, turn, ops, at);
    ForeignStepsStaySound(w, turn.writes);
    var w1, w' := ForeignSteps(w, turn.writes), TxnStep(w, turn, ops, at).0;
    if w' != w1 {
      assert w'.trace[|w1.trace|] == Commit(ops, w1.entries, at);
    }
  }

  lemma ReapCommitIsSafe(cfg: ProbeConfig, w1: World, w': World, node: string, kv: Entry, j: int, found: Entries,
                         at: int)
    requires Sound(w1) && Found(w1.trace, j, TrackKey(cfg, node), kv) && Expired(cfg, Some(kv), at)
    requires var ops := ReapOps(cfg, node, kv, found);
      && w'.trace == w1.trace + [Commit(ops, w1.entries, at)]
      && CommitJustified(w'.trace, |w1.trace|, w1.lenientDelete)
    ensures forall op | op in ReapOps(cfg, node, kv, found) && op.key.NodeKey? ::
      ReapSafe(cfg, w'.trace, |w1.trace|, op) || (w1.lenientDelete && TrackKey(cfg, op.key.name) !in w1.entries)
  {
    var ops, i, k := ReapOps(cfg, node, kv, found), |w1.trace|, TrackKey(cfg, node);
    var clear := ops[0];
    assert clear == DeleteCas(k, kv.index) && clear in ops;
    forall op | op in ops && op.key.NodeKey?
      ensures ReapSafe(cfg, w'.trace, i, op) || (w1.lenientDelete && TrackKey(cfg, op.key.name) !in w1.entries)
    {
      assert op == ops[1] && op.key == NodeKey(node);
      assert Justified(w'.trace, i, op);
      if Justified(w'.trace, i, clear) {
        assert w1.entries[k] == kv;
      }
    }
  }

  /** w' follows w, and all is well. */
  ghost predicate StaysSafe(cfg: ProbeConfig, w: World, w': World) {
    Good(w') && ReapsSafe(cfg, w') && w.trace <= w'.trace
  }

  lemma ReportStaysSafe(p: Prober, cfg: ProbeConfig, node: string, status: string, ops: seq<Op>, t: Times)
    requires Good(p.server.world) && ReapsSafe(cfg, p.server.world)
    requires (forall op | op in ops :: FromRead(p.server.world.trace, op)) && DeletesNoNode(ops)
    ensures var w' := Report(p, node, status, ops, t).server.world; StaysSafe(cfg, p.server.world, w')
  {
    TxnStaysGood(p.server.world, NextTurn(p.server.script), ops, t.decided);
    TxnKeepsReapsSafe(cfg, p.server.world, NextTurn(p.server.script), ops, t.decided);
  }

  lemma DeleteIsFromRead(trace: seq<Event>, j: int, k: Key, e: Entry)
    requires Found(trace, j, k, e)
    ensures FromRead(trace, DeleteCas(k, e.index))
  {
  }

  /** The clock as seen by a ping is one that was read. */
  ghost predicate SeenInTrace(trace: seq<Event>, k: Key, kv: Option<Entry>) {
    kv.Some? ==> exists j :: Found(trace, j, k, kv.value)
  }

  lemma HealthyPingStaysSafe(p: Prober, cfg: ProbeConfig, node: string, kv: Option<Entry>, t: Times)
    requires Good(p.server.world) && ReapsSafe(cfg, p.server.world)
    requires SeenInTrace(p.server.world.trace, TrackKey(cfg, node), kv)
    ensures var w' := HealthyPing(p, cfg, node, kv, t).server.world; StaysSafe(cfg, p.server.world, w')
  {
    if kv.Some? {
      var j :| Found(p.server.world.trace, j, TrackKey(cfg, node), kv.value);
      DeleteIsFromRead(p.server.world.trace, j, TrackKey(cfg, node), kv.value);
    }
    ReportStaysSafe(p, cfg, node, PASSING, HealthyOps(cfg, node, kv), t);
  }

  lemma ReapStaysSafe(p: Prober, cfg: ProbeConfig, node: string, kv: Entry, t: Times)
    requires Good(p.server.world) && ReapsSafe(cfg, p.server.world) && Expired(cfg, Some(kv), t.decided)
    requires SeenInTrace(p.server.world.trace, TrackKey(cfg, node), Some(kv))
    ensures var (s, found) := Ask(p.server, Only(NodeKey(node)));
      && StaysSafe(cfg, p.server.world, s.world)
      && (found.Some? ==>
            var w' := Report(p.(server := s), node, CRITICAL, ReapOps(cfg, node, kv, found.value), t).server.world;
            StaysSafe(cfg, p.server.world, w'))
  {
    FetchStaysGood(p.server.world, NextTurn(p.server.script), Only(NodeKey(node)));
    FetchKeepsReapsSafe(cfg, p.server.world, NextTurn(p.server.script), Only(NodeKey(node)));
    var (s, found) := Ask(p.server, Only(NodeKey(node)));
    if found.Some? {
      var ops, trace := ReapOps(cfg, node, kv, found.value), s.world.trace;
      var j :| Found(p.server.world.trace, j, TrackKey(cfg, node), kv);
      assert Found(trace, j, TrackKey(cfg, node), kv);
      ReapOpsAreFromReads(p.server.world.trace, trace, cfg, node, kv, found.value);
      TxnStaysGood(s.world, NextTurn(s.script), ops, t.decided);
      ReapKeepsReapsSafe(cfg, s.world, NextTurn(s.script), node, kv, j, found.value, t.decided);
    }
  }

  lemma FailedPingStaysSafe(p: Prober, cfg: ProbeConfig, node: string, kv: Option<Entry>, t: Times)
    requires Good(p.server.world) && ReapsSafe(cfg, p.server.world)
    requires SeenInTrace(p.server.world.trace, TrackKey(cfg, node), kv)
    ensures var w' := FailedPing(p, cfg, node, kv, t).server.world; StaysSafe(cfg, p.server.world, w')
  {
    if Expired(cfg, kv, t.decided) {
      ReapStaysSafe(p, cfg, node, kv.value, t);
    } else {
      ReportStaysSafe(p, cfg, node, CRITICAL, FailedOps(cfg, node, kv, t.decided), t);
    }
  }

  lemma ReadIsSeen(cfg: ProbeConfig, s: Server, k: Key)
    requires Good(s.world) && ReapsSafe(cfg, s.world)
    ensures var (s', found) := Ask(s, Only(k));
      StaysSafe(cfg, s.world, s'.world) && SeenInTrace(s'.world.trace, k, Seen(found, k))
  {
    FetchStaysGood(s.world, NextTurn(s.script), Only(k));
    FetchKeepsReapsSafe(cfg, s.world, NextTurn(s.script), Only(k));
    var (s', found) := Ask(s, Only(k));
    if Seen(found, k).Some? {
      assert Found(s'.world.trace, |s'.world.trace| - 1, k, found.value[k]);
    }
  }

  lemma PingStaysSafe(p: Prober, cfg: ProbeConfig, node: string, alive: bool, t: Times)
    requires Good(p.server.world) && ReapsSafe(cfg, p.server.world)
    ensures StaysSafe(cfg, p.server.world, Ping(p, cfg, node, alive, t).server.world)
  {
    var k := TrackKey(cfg, node);
    ReadIsSeen(cfg, p.server, k);
    var (s, found) := Ask(p.server, Only(k));
    if alive {
      HealthyPingStaysSafe(p.(server := s), cfg, node, Seen(found, k), t);
    } else {
      FailedPingStaysSafe(p.(server := s), cfg, node, Seen(found, k), t);
    }
  }

  // ---------------------------------------------------------------- several agents

  /** A ping by one of several agents begins, unless it has one to the node in flight, or ends. */
  datatype AgentStep = Begin(agent: nat, node: string) | Finish(agent: nat, node: string, alive: bool, t: Times)

  /** Agents share the server; what they have reported and what they have read at the start of a ping is their own. */
  datatype Agents = Agents(
    server: Server, known: map<nat, map<string, LastKnown>>, inflight: map<(nat, string), Option<Entry>>)

  function KnownTo(a: Agents, agent: nat): map<string, LastKnown> {
    if agent in a.known then a.known[agent] else map[]
  }

  function AgentsStep(a: Agents, cfg: ProbeConfig, e: AgentStep): Agents {
    var id := (e.agent, e.node);
    match e
    case Begin(agent, node) =>
      if id in a.inflight then a
      else
        var (s, found) := Ask(a.server, Only(TrackKey(cfg, node)));
        a.(server := s, inflight := a.inflight[id := Seen(found, TrackKey(cfg, node))])
    case Finish(agent, node, alive, t) =>
      if id !in a.inflight then a
      else
        var p := Prober(a.server, KnownTo(a, agent));
        var kv := a.inflight[id];
        var p' := if alive then HealthyPing(p, cfg, node, kv, t) else FailedPing(p, cfg, node, kv, t);
        Agents(p'.server, a.known[agent := p'.known], a.inflight - {id})
  }

  function AgentsRun(a: Agents, cfg: ProbeConfig, es: seq<AgentStep>): Agents {
    if es == [] then a else AgentsStep(AgentsRun(a, cfg, es[..|es| - 1]), cfg, es[|es| - 1])
  }

  /** What the agents hold is what has been read at some time. */
  ghost predicate AllSeen(cfg: ProbeConfig, a: Agents) {
    forall id | id in a.inflight :: SeenInTrace(a.server.world.trace, TrackKey(cfg, id.1), a.inflight[id])
  }

  lemma SeenLasts(trace: seq<Event>, longer: seq<Event>, k: Key, kv: Option<Entry>)
    requires SeenInTrace(trace, k, kv) && trace <= longer
    ensures SeenInTrace(longer, k, kv)
  {
    if kv.Some? {
      var j :| Found(trace, j, k, kv.value);
      assert Found(longer, j, k, kv.value);
    }
  }

  lemma StepStaysSafe(a: Agents, cfg: ProbeConfig, e: AgentStep)
    requires Good(a.server.world) && ReapsSafe(cfg, a.server.world) && AllSeen(cfg, a)
    ensures var b := AgentsStep(a, cfg, e); StaysSafe(cfg, a.server.world, b.server.world) && AllSeen(cfg, b)
  {
    var b := AgentsStep(a, cfg, e);
    match e {
      case Begin(agent, node) =>
        ReadIsSeen(cfg, a.server, TrackKey(cfg, node));
      case Finish(agent, node, alive, t) =>
        if (agent, node) in a.inflight {
          var p := Prober(a.server, KnownTo(a, agent));
          HealthyPingStaysSafe(p, cfg, node, a.inflight[(agent, node)], t);
          FailedPingStaysSafe(p, cfg, node, a.inflight[(agent, node)], t);
        }
    }
    forall id | id in b.inflight ensures SeenInTrace(b.server.world.trace, TrackKey(cfg, id.1), b.inflight[id]) {
      if id in a.inflight && b.inflight[id] == a.inflight[id] {
        SeenLasts(a.server.world.trace, b.server.world.trace, TrackKey(cfg, id.1), a.inflight[id]);
      }
    }
  }

  /** However the pings of several agents overlap, with whatever results, and whatever other writers and the network
      do in between: a node is deleted only for a clock that has run out and that nobody has cleared or restarted
      since it was read, and only if nobody has touched the node since it was read. */
  lemma {:induction false} NodesAreReapedSafely(a: Agents, cfg: ProbeConfig, es: seq<AgentStep>)
    requires Good(a.server.world) && ReapsSafe(cfg, a.server.world) && AllSeen(cfg, a)
    ensures var b := AgentsRun(a, cfg, es); Good(b.server.world) && ReapsSafe(cfg, b.server.world) && AllSeen(cfg, b)
  {
    if es != [] {
      NodesAreReapedSafely(a, cfg, es[..|es| - 1]);
      StepStaysSafe(AgentsRun(a, cfg, es[..|es| - 1]), cfg, es[|es| - 1]);
    }
  }

  // ---------------------------------------------------------------- a run that reaps a node that has recovered

  /** Nobody interferes; the node is registered and has this clock. */
  ghost predicate ClockThere(s: Server, cfg: ProbeConfig, node: string, kv: Entry) {
    var e, k := s.world.entries, TrackKey(cfg, node);
    s.script == [] && NodeKey(node) in e && k in e && e[k] == kv
  }

  lemma QuietBegin(a: Agents, cfg: ProbeConfig, agent: nat, node: string, kv: Entry)
    requires ClockThere(a.server, cfg, node, kv) && (agent, node) !in a.inflight
    ensures var b := AgentsStep(a, cfg, Begin(agent, node));
      && ClockThere(b.server, cfg, node, kv) && b.server.world.lenientDelete == a.server.world.lenientDelete
      && b.known == a.known && b.inflight == a.inflight[(agent, node) := Some(kv)]
  {
    QuietAsk(a.server, Only(TrackKey(cfg, node)));
    assert ForeignSteps(a.server.world, []) == a.server.world;
  }

  /** A ping that succeeds clears the clock that it saw. */
  lemma QuietRecovery(p: Prober, cfg: ProbeConfig, node: string, kv: Entry, t: Times)
    requires ClockThere(p.server, cfg, node, kv) && ShouldUpdate(p.known, node, PASSING, cfg.refreshInterval, t.seen)
    ensures var s := HealthyPing(p, cfg, node, Some(kv), t).server; var e := s.world.entries;
      && s.script == [] && s.world.lenientDelete == p.server.world.lenientDelete
      && NodeKey(node) in e && TrackKey(cfg, node) !in e
      && HealthKey(node) in e && e[HealthKey(node)].val.check.status == PASSING
  {
    var w := p.server.world;
    var clear := AnyOp.DeleteCas(TrackKey(cfg, node), kv.index);
    var report := SetHealth(node, PASSING, NODE_ALIVE_STATUS);
    assert HealthyOps(cfg, node, Some(kv)) == [clear, report];
    TwoOps(w.entries, clear, report, w.index + 1, w.lenientDelete);
    QuietCommit(p.server, [clear, report], t.decided);
    assert ForeignSteps(w, []) == w;
  }

  /** A ping that fails and saw a clock that had run out deletes the node, although the clock is gone by now, exactly
      if the server takes its deletion for done. */
  lemma QuietReap(p: Prober, cfg: ProbeConfig, node: string, kv: Entry, t: Times)
    requires p.server.script == [] && ShouldUpdate(p.known, node, CRITICAL, cfg.refreshInterval, t.seen)
    requires NodeKey(node) in p.server.world.entries && TrackKey(cfg, node) !in p.server.world.entries
    requires Expired(cfg, Some(kv), t.decided)
    ensures var e := FailedPing(p, cfg, node, Some(kv), t).server.world.entries;
      NodeKey(node) !in e <==> p.server.world.lenientDelete
  {
    QuietAsk(p.server, Only(NodeKey(node)));
    var (s, found) := Ask(p.server, Only(NodeKey(node)));
    var w := s.world;
    assert ForeignSteps(p.server.world, []) == p.server.world && ForeignSteps(w, []) == w;
    var clear := AnyOp.DeleteCas(TrackKey(cfg, node), kv.index);
    var drop := AnyOp.DeleteCas(NodeKey(node), found.value[NodeKey(node)].index);
    assert ReapOps(cfg, node, kv, found.value) == [clear, drop];
    TwoOps(w.entries, clear, drop, w.index + 1, w.lenientDelete);
  }

  lemma FourSteps(a: Agents, cfg: ProbeConfig, es: seq<AgentStep>)
    requires |es| == 4
    ensures var a3 := AgentsStep(AgentsStep(AgentsStep(a, cfg, es[0]), cfg, es[1]), cfg, es[2]);
      AgentsRun(a, cfg, es[..3]) == a3 && AgentsRun(a, cfg, es) == AgentsStep(a3, cfg, es[3])
  {
    assert es[..3][..2] == es[..2] && es[..2][..1] == es[..1] && es[..1][..0] == [];
    assert AgentsRun(a, cfg, es[..1]) == AgentsStep(a, cfg, es[0]);
  }

  /** Two agents ping a node whose clock has run out, and both have read the clock. The second reaches the node and
      clears the clock: the node is passing. Then the first, which did not reach it, reaps it after all, exactly if
      the server takes the deletion of an absent key for done. */
  lemma LenientServerReapsRecovered(a: Agents, cfg: ProbeConfig, node: string, kv: Entry, i: nat, j: nat,
                                    ti: Times, tj: Times)
    requires ClockThere(a.server, cfg, node, kv) && Expired(cfg, Some(kv), ti.decided)
    requires i != j && (i, node) !in a.inflight && (j, node) !in a.inflight
    requires ShouldUpdate(KnownTo(a, i), node, CRITICAL, cfg.refreshInterval, ti.seen)
    requires ShouldUpdate(KnownTo(a, j), node, PASSING, cfg.refreshInterval, tj.seen)
    ensures var es := [Begin(i, node), Begin(j, node), Finish(j, node, true, tj), Finish(i, node, false, ti)];
            var e3 := AgentsRun(a, cfg, es[..3]).server.world.entries;
            var e4 := AgentsRun(a, cfg, es).server.world.entries;
      && NodeKey(node) in e3 && HealthKey(node) in e3 && e3[HealthKey(node)].val.check.status == PASSING
      && (NodeKey(node) !in e4 <==> a.server.world.lenientDelete)
  {
    var es := [Begin(i, node), Begin(j, node), Finish(j, node, true, tj), Finish(i, node, false, ti)];
    FourSteps(a, cfg, es);
    var a1 := AgentsStep(a, cfg, es[0]);
    var a2 := AgentsStep(a1, cfg, es[1]);
    var a3 := AgentsStep(a2, cfg, es[2]);
    QuietBegin(a, cfg, i, node, kv);
    QuietBegin(a1, cfg, j, node, kv);
    QuietRecovery(Prober(a2.server, KnownTo(a2, j)), cfg, node, kv, tj);
    QuietReap(Prober(a3.server, KnownTo(a3, i)), cfg, node, kv, ti);
  }

  // ---------------------------------------------------------------- the pinging side of an agent

  class NodeProber {
    const client: Consul
    const config: ProbeConfig
    var knownNodeStatuses: map<string, LastKnown>
    var inflightPings: set<string>
    var trackedNodes: set<string>  // the list that came before the current one

    constructor (client: Consul, config: ProbeConfig)
      ensures this.client == client && this.config == config
      ensures knownNodeStatuses == map[] && inflightPings == {} && trackedNodes == {}
    {
      this.client, this.config := client, config;
      knownNodeStatuses, inflightPings, trackedNodes := map[], {}, {};
    }

    ghost function Now(): Prober
      reads this, client
    {
      Prober(Server(client.world, client.script), knownNodeStatuses)
    }

    ghost predicate Valid()
      reads this, client
    {
      Good(client.world) && ReapsSafe(config, client.world)
    }

    /** updateCoords: a ping starts unless the last one to the node is still outstanding. */
    method StartPing(node: string) returns (started: bool)
      modifies this`inflightPings
      ensures started <==> node !in old(inflightPings)
      ensures inflightPings == old(inflightPings) + {node}
    {
      started := node !in inflightPings;
      inflightPings := inflightPings + {node};
    }

    /** runNodePing; `alive` is what the ping says. */
    method RunNodePing(node: string, alive: bool, t: Times)
      requires Valid()
      modifies this`knownNodeStatuses, this`inflightPings, client
      ensures Valid() && old(client.world).trace <= client.world.trace
      ensures Now() == Ping(old(Now()), config, node, alive, t)
      ensures inflightPings == old(inflightPings) - {node}
    {
      PingStaysSafe(Now(), config, node, alive, t);
      ReadIsSeen(config, Now().server, TrackKey(config, node));
      var key := TrackKey(config, node);
      var kvPair := None;
      var found := client.Fetch(Only(key));
      if found.Some? && key in found.value {
        kvPair := Some(found.value[key]);
      }
      if alive {
        UpdateHealthyNode(node, kvPair, t);
      } else {
        UpdateFailedNode(node, kvPair, t);
      }
      inflightPings := inflightPings - {node};
    }

    /** updateHealthyNode. */
    method UpdateHealthyNode(node: string, kvPair: Option<Entry>, t: Times)
      requires Valid() && SeenInTrace(client.world.trace, TrackKey(config, node), kvPair)
      modifies this`knownNodeStatuses, client
      ensures Valid() && Now() == HealthyPing(old(Now()), config, node, kvPair, t)
    {
      HealthyPingStaysSafe(Now(), config, node, kvPair, t);
      if ShouldUpdate(knownNodeStatuses, node, PASSING, config.refreshInterval, t.seen) {
        var ops: seq<Op> := [];
        if kvPair.Some? {
          ops := ops + [DeleteCas(TrackKey(config, node), kvPair.value.index)];
        }
        assert ops + [SetHealth(node, PASSING, NODE_ALIVE_STATUS)] == HealthyOps(config, node, kvPair);
        UpdateNodeCheck(node, ops, PASSING, NODE_ALIVE_STATUS, t);
      }
    }

    /** updateFailedNode. */
    method UpdateFailedNode(node: string, kvPair: Option<Entry>, t: Times)
      requires Valid() && SeenInTrace(client.world.trace, TrackKey(config, node), kvPair)
      modifies this`knownNodeStatuses, client
      ensures Valid() && Now() == FailedPing(old(Now()), config, node, kvPair, t)
    {
      FailedPingStaysSafe(Now(), config, node, kvPair, t);
      if !ShouldUpdate(knownNodeStatuses, node, CRITICAL, config.refreshInterval, t.seen) {
        return;
      }
      var ops: seq<Op> := [];
      if kvPair.None? {
        ops := ops + [AnyOp.Set(TrackKey(config, node), Stamp(t.decided))];
      } else if kvPair.value.val.Stamp? && t.decided - kvPair.value.val.time > config.reconnectTimeout {
        ReapNode(node, kvPair.value, t);
        return;
      }
      assert ops + [SetHealth(node, CRITICAL, NODE_CRITICAL_STATUS)] == FailedOps(config, node, kvPair, t.decided);
      UpdateNodeCheck(node, ops, CRITICAL, NODE_CRITICAL_STATUS, t);
    }

    /** updateFailedNodeTxn, the end of a node that failed for too long. */
    method ReapNode(node: string, kvPair: Entry, t: Times)
      requires Valid() && SeenInTrace(client.world.trace, TrackKey(config, node), Some(kvPair))
      requires Expired(config, Some(kvPair), t.decided)
      modifies this`knownNodeStatuses, client
      ensures Valid()
      ensures Now() ==
        var p := old(Now());
        var (s, found) := Ask(p.server, Only(NodeKey(node)));
        if found == None then p.(server := s)
        else Report(p.(server := s), node, CRITICAL, ReapOps(config, node, kvPair, found.value), t)
    {
      ReapStaysSafe(Now(), config, node, kvPair, t);
      ghost var trace := client.world.trace;
      var ops: seq<Op> := [DeleteCas(TrackKey(config, node), kvPair.index)];
      var existing := client.Fetch(Only(NodeKey(node)));
      if existing == None {
        return;
      }
      if NodeKey(node) in existing.value {
        ops := ops + [DeleteCas(NodeKey(node), existing.value[NodeKey(node)].index)];
      }
      assert ops == ReapOps(config, node, kvPair, existing.value);
      ReapOpsAreFromReads(trace, client.world.trace, config, node, kvPair, existing.value);
      RunClientTxn(node, CRITICAL, ops, t);
    }

    /** updateNodeCheck: the check's new status joins the operations on the clock. */
    method UpdateNodeCheck(node: string, ops: seq<Op>, status: string, output: string, t: Times)
      requires Good(client.world) && forall op | op in ops :: FromRead(client.world.trace, op)
      modifies this`knownNodeStatuses, client
      ensures Good(client.world)
      ensures Now() == Report(old(Now()), node, status, ops + [SetHealth(node, status, output)], t)
    {
      RunClientTxn(node, status, ops + [SetHealth(node, status, output)], t);
    }

    /** runClientTxn, and updateLastKnownNodeStatus if it reports no error. */
    method RunClientTxn(node: string, status: string, ops: seq<Op>, t: Times)
      requires Good(client.world) && forall op | op in ops :: FromRead(client.world.trace, op)
      modifies this`knownNodeStatuses, client
      ensures Good(client.world) && Now() == Report(old(Now()), node, status, ops, t)
    {
      var reply := client.Txn(ops, t.decided);
      if reply.Reply? && reply.errors == [] && reply.ok {
        knownNodeStatuses := knownNodeStatuses[node := LastKnown(status, t.done)];
      }
    }

    /** checkNodeTracking: when a list arrives, what is remembered of nodes that the list before it did not have is
        forgotten. */
    method CheckNodeTracking(nodes: set<string>)
      modifies this
      ensures trackedNodes == nodes
      ensures inflightPings == old(inflightPings) * old(trackedNodes)
      ensures knownNodeStatuses == old(knownNodeStatuses) - (old(knownNodeStatuses).Keys - old(trackedNodes))
    {
      var left := knownNodeStatuses.Keys;
      ghost var gone := {};
      while left != {}
        invariant trackedNodes == old(trackedNodes) && inflightPings == old(inflightPings)
        invariant knownNodeStatuses == old(knownNodeStatuses) - gone
        invariant left <= old(knownNodeStatuses).Keys
        invariant gone == (old(knownNodeStatuses).Keys - left) - trackedNodes
      {
        var node :| node in left;
        left := left - {node};
        if node !in trackedNodes {
          knownNodeStatuses, gone := knownNodeStatuses - {node}, gone + {node};
        }
      }
      inflightPings := inflightPings * trackedNodes;
      trackedNodes := nodes;
    }
  }

  lemma ReapOpsAreFromReads(trace: seq<Event>, longer: seq<Event>, cfg: ProbeConfig, node: string, kv: Entry,
                            found: Entries)
    requires trace <= longer && longer != [] && SeenInTrace(trace, TrackKey(cfg, node), Some(kv))
    requires forall k | k in found :: Found(longer, |longer| - 1, k, found[k])
    ensures forall op | op in ReapOps(cfg, node, kv, found) :: FromRead(longer, op)
  {
    var j :| Found(trace, j, TrackKey(cfg, node), kv);
    DeleteIsFromRead(longer, j, TrackKey(cfg, node), kv);
    if NodeKey(node) in found {
      DeleteIsFromRead(longer, |longer| - 1, NodeKey(node), found[NodeKey(node)]);
    }
  }
}
