/** coordinate.go: what the failure clock of a node says, as long as one agent pings it and can read it. */
module FailureClock {
  import opened Options
  import opened Definitions
  import opened Store
  import opened NodeProbe

  /** The catalog says that the node is failing. */
  predicate Critical(e: Entries, node: string) {
    HealthKey(node) in e && e[HealthKey(node)].val.CheckVal? && e[HealthKey(node)].val.check.status == CRITICAL
  }

  /** What the clock says. */
  function StampAt(e: Entries, cfg: ProbeConfig, node: string): Option<int> {
    var k := TrackKey(cfg, node);
    if k in e && e[k].val.Stamp? then Some(e[k].val.time) else None
  }

  /** The clock is there exactly while the node's committed status is critical; and only registered nodes have one. */
  ghost predicate ClockRight(e: Entries, cfg: ProbeConfig, node: string) {
    && (TrackKey(cfg, node) in e <==> Critical(e, node))
    && (HealthKey(node) in e ==> NodeKey(node) in e)
  }

  /** Nobody but ESM touches the clock or the node's check, be it by deregistering the node. */
  ghost predicate Undisturbed(script: seq<Turn>, cfg: ProbeConfig, node: string) {
    forall turn, write | turn in script && write in turn.writes ::
      !WriteTouches(write, TrackKey(cfg, node)) && !WriteTouches(write, HealthKey(node))
  }

  /** The same clock and the same check. */
  ghost predicate SameClock(e: Entries, e': Entries, cfg: ProbeConfig, node: string) {
    && Get(e', TrackKey(cfg, node)) == Get(e, TrackKey(cfg, node))
    && Get(e', HealthKey(node)) == Get(e, HealthKey(node))
    && (NodeKey(node) in e && HealthKey(node) in e ==> NodeKey(node) in e')
  }

  // ---------------------------------------------------------------- other writers

  lemma OneWriteKeepsClock(w: World, write: Write, cfg: ProbeConfig, node: string)
    requires !WriteTouches(write, TrackKey(cfg, node)) && !WriteTouches(write, HealthKey(node))
    ensures SameClock(w.entries, ForeignStep(w, write).entries, cfg, node)
  {
  }

  lemma {:induction false} WritesKeepClock(w: World, writes: seq<Write>, cfg: ProbeConfig, node: string)
    requires forall write | write in writes ::
      !WriteTouches(write, TrackKey(cfg, node)) && !WriteTouches(write, HealthKey(node))
    ensures SameClock(w.entries, ForeignSteps(w, writes).entries, cfg, node)
  {
    if writes != [] {
      var front, last := writes[..|writes| - 1], writes[|writes| - 1];
      assert last in writes;
      WritesKeepClock(w, front, cfg, node);
      OneWriteKeepsClock(ForeignSteps(w, front), last, cfg, node);
    }
  }

  lemma TurnKeepsClock(s: Server, cfg: ProbeConfig, node: string)
    requires Undisturbed(s.script, cfg, node)
    ensures SameClock(s.world.entries, ForeignSteps(s.world, NextTurn(s.script).writes).entries, cfg, node)
    ensures Undisturbed(LaterTurns(s.script), cfg, node)
  {
    WritesKeepClock(s.world, NextTurn(s.script).writes, cfg, node);
    assert forall turn | turn in LaterTurns(s.script) :: turn in s.script;
  }

  lemma AskKeepsClock(s: Server, scope: Scope, cfg: ProbeConfig, node: string)
    requires Undisturbed(s.script, cfg, node)
    ensures var (s', found) := Ask(s, scope);
      && Undisturbed(s'.script, cfg, node) && SameClock(s.world.entries, s'.world.entries, cfg, node)
      && (found.Some? ==> found.value == Visible(s'.world.entries, scope))
      && (NextTurn(s.script).fate == Answer ==> found.Some?)
  {
    TurnKeepsClock(s, cfg, node);
  }

  // ---------------------------------------------------------------- transactions

  /** What a transaction makes of the entries, if it is applied next. */
  ghost function Applied(s: Server, ops: seq<Op>): Entries {
    var w1 := ForeignSteps(s.world, NextTurn(s.script).writes);
    RunOps(w1.entries, ops, w1.index + 1, w1.lenientDelete).0
  }

  /** Either the transaction changed nothing, or all of it was applied to entries with the same clock. */
  lemma SubmitMeans(s: Server, ops: seq<Op>, at: int, cfg: ProbeConfig, node: string)
    requires Undisturbed(s.script, cfg, node)
    ensures var s' := Submit(s, ops, at).0;
            var w1 := ForeignSteps(s.world, NextTurn(s.script).writes);
            var (m, errors) := RunOps(w1.entries, ops, w1.index + 1, w1.lenientDelete);
      && Undisturbed(s'.script, cfg, node)
      && SameClock(s.world.entries, w1.entries, cfg, node)
      && (s'.world.entries == w1.entries || (errors == [] && s'.world.entries == m))
  {
    TurnKeepsClock(s, cfg, node);
  }

  lemma HealthyApplied(m: Entries, cfg: ProbeConfig, node: string, kv: Option<Entry>, n: nat, lenient: bool)
    requires ClockRight(m, cfg, node) && Get(m, TrackKey(cfg, node)) == kv
    requires RunOps(m, HealthyOps(cfg, node, kv), n, lenient).1 == []
    ensures var m' := RunOps(m, HealthyOps(cfg, node, kv), n, lenient).0;
      ClockRight(m', cfg, node) && !Critical(m', node) && StampAt(m', cfg, node) == None
  {
    var report := SetHealth(node, PASSING, NODE_ALIVE_STATUS);
    if kv.Some? {
      var clear := AnyOp.DeleteCas(TrackKey(cfg, node), kv.value.index);
      assert HealthyOps(cfg, node, kv) == [clear, report];
      TwoOps(m, clear, report, n, lenient);
    } else {
      assert HealthyOps(cfg, node, kv) == [report];
      OneOp(m, report, n, lenient);
    }
  }

  lemma FailedApplied(m: Entries, cfg: ProbeConfig, node: string, kv: Option<Entry>, at: int, n: nat, lenient: bool)
    requires ClockRight(m, cfg, node) && Get(m, TrackKey(cfg, node)) == kv
    requires RunOps(m, FailedOps(cfg, node, kv, at), n, lenient).1 == []
    ensures var m' := RunOps(m, FailedOps(cfg, node, kv, at), n, lenient).0;
      && ClockRight(m', cfg, node) && Critical(m', node)
      && StampAt(m', cfg, node) == if Critical(m, node) then StampAt(m, cfg, node) else Some(at)
  {
    var report := SetHealth(node, CRITICAL, NODE_CRITICAL_STATUS);
    if kv.None? {
      var start: Op := AnyOp.Set(TrackKey(cfg, node), Stamp(at));
      assert FailedOps(cfg, node, kv, at) == [start, report];
      TwoOps(m, start, report, n, lenient);
    } else {
      assert FailedOps(cfg, node, kv, at) == [report];
      OneOp(m, report, n, lenient);
    }
  }

  lemma ReapApplied(m: Entries, cfg: ProbeConfig, node: string, kv: Entry, found: Entries, n: nat, lenient: bool)
    requires ClockRight(m, cfg, node) && Get(m, TrackKey(cfg, node)) == Some(kv) && NodeKey(node) in found
    requires RunOps(m, ReapOps(cfg, node, kv, found), n, lenient).1 == []
    ensures var m' := RunOps(m, ReapOps(cfg, node, kv, found), n, lenient).0;
      ClockRight(m', cfg, node) && !Critical(m', node) && StampAt(m', cfg, node) == None
  {
    var clear := AnyOp.DeleteCas(TrackKey(cfg, node), kv.index);
    var drop := AnyOp.DeleteCas(NodeKey(node), found[NodeKey(node)].index);
    assert ReapOps(cfg, node, kv, found) == [clear, drop];
    TwoOps(m, clear, drop, n, lenient);
  }

  // ---------------------------------------------------------------- one ping

  /** How a spell goes on: it ends when the status is not critical, and begins when it becomes so. */
  function SpellAfter(before: Option<int>, was: bool, still: bool, at: int): Option<int> {
    if !still then None else if was then before else Some(at)
  }

  ghost predicate ClockMoves(e: Entries, e': Entries, cfg: ProbeConfig, node: string, at: int) {
    && ClockRight(e', cfg, node)
    && StampAt(e', cfg, node) == SpellAfter(StampAt(e, cfg, node), Critical(e, node), Critical(e', node), at)
  }

  lemma SameClockMoves(e: Entries, e': Entries, cfg: ProbeConfig, node: string, at: int)
    requires ClockRight(e, cfg, node) && SameClock(e, e', cfg, node)
    ensures ClockMoves(e, e', cfg, node, at)
    ensures StampAt(e', cfg, node) == StampAt(e, cfg, node) && Critical(e', node) == Critical(e, node)
  {
  }

  /** Movements count from what was there before others wrote. */
  lemma SameMoves(e: Entries, w: Entries, e': Entries, cfg: ProbeConfig, node: string, at: int)
    requires ClockRight(e, cfg, node) && SameClock(e, w, cfg, node)
    ensures ClockRight(w, cfg, node) && Critical(w, node) == Critical(e, node)
    ensures StampAt(w, cfg, node) == StampAt(e, cfg, node)
    ensures ClockMoves(e, e', cfg, node, at) <==> ClockMoves(w, e', cfg, node, at)
  {
  }

  /** A transaction moves the clock rightly exactly if it is not applied or its operations do. */
  lemma SubmitMoves(s: Server, ops: seq<Op>, at: int, cfg: ProbeConfig, node: string)
    requires Undisturbed(s.script, cfg, node) && ClockRight(s.world.entries, cfg, node)
    ensures var s' := Submit(s, ops, at).0;
            var w1 := ForeignSteps(s.world, NextTurn(s.script).writes);
      && Undisturbed(s'.script, cfg, node)
      && (ClockMoves(s.world.entries, s'.world.entries, cfg, node, at)
          <==> (TxnCommits(s, ops) ==> ClockMoves(w1.entries, Applied(s, ops), cfg, node, at)))
  {
    var w1 := ForeignSteps(s.world, NextTurn(s.script).writes);
    TurnKeepsClock(s, cfg, node);
    SubmitKnows(s, ops, at);
    SameMoves(s.world.entries, w1.entries, Submit(s, ops, at).0.world.entries, cfg, node, at);
    SameClockMoves(s.world.entries, w1.entries, cfg, node, at);
  }

  lemma HealthyMoves(p: Prober, cfg: ProbeConfig, node: string, kv: Option<Entry>, t: Times)
    requires Undisturbed(p.server.script, cfg, node) && ClockRight(p.server.world.entries, cfg, node)
    requires Get(p.server.world.entries, TrackKey(cfg, node)) == kv
    ensures var p' := Report(p, node, PASSING, HealthyOps(cfg, node, kv), t);
      && Undisturbed(p'.server.script, cfg, node)
      && ClockMoves(p.server.world.entries, p'.server.world.entries, cfg, node, t.decided)
  {
    var s, ops := p.server, HealthyOps(cfg, node, kv);
    var w1 := ForeignSteps(s.world, NextTurn(s.script).writes);
    TurnKeepsClock(s, cfg, node);
    SameClockMoves(s.world.entries, w1.entries, cfg, node, t.decided);
    if TxnCommits(s, ops) {
      HealthyApplied(w1.entries, cfg, node, kv, w1.index + 1, w1.lenientDelete);
    }
    SubmitMoves(s, ops, t.decided, cfg, node);
  }

  lemma FailedMoves(p: Prober, cfg: ProbeConfig, node: string, kv: Option<Entry>, t: Times)
    requires Undisturbed(p.server.script, cfg, node) && ClockRight(p.server.world.entries, cfg, node)
    requires Get(p.server.world.entries, TrackKey(cfg, node)) == kv
    ensures var p' := Report(p, node, CRITICAL, FailedOps(cfg, node, kv, t.decided), t);
      && Undisturbed(p'.server.script, cfg, node)
      && ClockMoves(p.server.world.entries, p'.server.world.entries, cfg, node, t.decided)
  {
    var s, ops := p.server, FailedOps(cfg, node, kv, t.decided);
    var w1 := ForeignSteps(s.world, NextTurn(s.script).writes);
    TurnKeepsClock(s, cfg, node);
    SameClockMoves(s.world.entries, w1.entries, cfg, node, t.decided);
    if TxnCommits(s, ops) {
      FailedApplied(w1.entries, cfg, node, kv, t.decided, w1.index + 1, w1.lenientDelete);
    }
    SubmitMoves(s, ops, t.decided, cfg, node);
  }

  lemma ReapMoves(p: Prober, cfg: ProbeConfig, node: string, kv: Entry, found: Entries, t: Times)
    requires Undisturbed(p.server.script, cfg, node) && ClockRight(p.server.world.entries, cfg, node)
    requires Get(p.server.world.entries, TrackKey(cfg, node)) == Some(kv) && NodeKey(node) in found
    ensures var p' := Report(p, node, CRITICAL, ReapOps(cfg, node, kv, found), t);
      && Undisturbed(p'.server.script, cfg, node)
      && ClockMoves(p.server.world.entries, p'.server.world.entries, cfg, node, t.decided)
  {
    var s, ops := p.server, ReapOps(cfg, node, kv, found);
    var w1 := ForeignSteps(s.world, NextTurn(s.script).writes);
    TurnKeepsClock(s, cfg, node);
    SameClockMoves(s.world.entries, w1.entries, cfg, node, t.decided);
    if TxnCommits(s, ops) {
      ReapApplied(w1.entries, cfg, node, kv, found, w1.index + 1, w1.lenientDelete);
    }
    SubmitMoves(s, ops, t.decided, cfg, node);
  }

  lemma FailedPingMoves(p: Prober, cfg: ProbeConfig, node: string, kv: Option<Entry>, t: Times)
    requires Undisturbed(p.server.script, cfg, node) && ClockRight(p.server.world.entries, cfg, node)
    requires Get(p.server.world.entries, TrackKey(cfg, node)) == kv
    ensures var p' := FailedPing(p, cfg, node, kv, t);
      && Undisturbed(p'.server.script, cfg, node)
      && ClockMoves(p.server.world.entries, p'.server.world.entries, cfg, node, t.decided)
  {
    FailedMoves(p, cfg, node, kv, t);
    SameClockMoves(p.server.world.entries, p.server.world.entries, cfg, node, t.decided);
    if Expired(cfg, kv, t.decided) {
      AskKeepsClock(p.server, Only(NodeKey(node)), cfg, node);
      var (s, found) := Ask(p.server, Only(NodeKey(node)));
      SameClockMoves(p.server.world.entries, s.world.entries, cfg, node, t.decided);
      if found.Some? {
        assert Critical(s.world.entries, node) && NodeKey(node) in found.value;
        ReapMoves(p.(server := s), cfg, node, kv.value, found.value, t);
      }
    }
  }

  /** A ping of the node whose clock can be read: the clock stays right, a recovery clears it, a first failure starts
      it, and a later one leaves it alone. */
  lemma PingMovesClock(p: Prober, cfg: ProbeConfig, node: string, alive: bool, t: Times)
    requires Undisturbed(p.server.script, cfg, node) && ClockRight(p.server.world.entries, cfg, node)
    requires NextTurn(p.server.script).fate == Answer
    ensures var p' := Ping(p, cfg, node, alive, t);
      && Undisturbed(p'.server.script, cfg, node)
      && ClockMoves(p.server.world.entries, p'.server.world.entries, cfg, node, t.decided)
  {
    var k := TrackKey(cfg, node);
    AskKeepsClock(p.server, Only(k), cfg, node);
    var (s, found) := Ask(p.server, Only(k));
    var q, kv := p.(server := s), Seen(found, k);
    SameClockMoves(p.server.world.entries, s.world.entries, cfg, node, t.decided);
    assert kv == Get(s.world.entries, k);
    if alive {
      HealthyMoves(q, cfg, node, kv, t);
    } else {
      FailedPingMoves(q, cfg, node, kv, t);
    }
  }

  // ---------------------------------------------------------------- pings of other nodes

  lemma OtherOpsKeepClock(m: Entries, ops: seq<Op>, n: nat, lenient: bool, cfg: ProbeConfig, node: string)
    requires RunOps(m, ops, n, lenient).1 == []
    requires forall op | op in ops ::
      !OpTouches(op, TrackKey(cfg, node)) && !OpTouches(op, HealthKey(node)) && !OpTouches(op, NodeKey(node))
    ensures SameClock(m, RunOps(m, ops, n, lenient).0, cfg, node)
  {
    UntouchedEntriesStay(m, ops, n, lenient, TrackKey(cfg, node));
    UntouchedEntriesStay(m, ops, n, lenient, HealthKey(node));
    UntouchedEntriesStay(m, ops, n, lenient, NodeKey(node));
  }

  lemma OtherReportKeepsClock(p: Prober, cfg: ProbeConfig, other: string, status: string, ops: seq<Op>, t: Times,
                              node: string)
    requires Undisturbed(p.server.script, cfg, node)
    requires forall op | op in ops ::
      !OpTouches(op, TrackKey(cfg, node)) && !OpTouches(op, HealthKey(node)) && !OpTouches(op, NodeKey(node))
    ensures var p' := Report(p, other, status, ops, t);
      Undisturbed(p'.server.script, cfg, node) && SameClock(p.server.world.entries, p'.server.world.entries, cfg, node)
  {
    var s := p.server;
    var w1 := ForeignSteps(s.world, NextTurn(s.script).writes);
    SubmitMeans(s, ops, t.decided, cfg, node);
    if RunOps(w1.entries, ops, w1.index + 1, w1.lenientDelete).1 == [] {
      OtherOpsKeepClock(w1.entries, ops, w1.index + 1, w1.lenientDelete, cfg, node);
    }
  }

  /** None of what a ping of another node sends touches this node's keys. */
  lemma OtherKeys(cfg: ProbeConfig, other: string, node: string)
    requires other != node
    ensures TrackKey(cfg, other) != TrackKey(cfg, node) && HealthKey(other) != HealthKey(node)
    ensures !Covers(NodeKey(other), HealthKey(node)) && NodeKey(other) != NodeKey(node)
  {
    if TrackKey(cfg, other) == TrackKey(cfg, node) {
      TrackKeysDiffer(cfg, other, node);
    }
  }

  lemma OtherFailedPingKeepsClock(p: Prober, cfg: ProbeConfig, other: string, kv: Option<Entry>, t: Times, node: string)
    requires Undisturbed(p.server.script, cfg, node) && other != node
    ensures var p' := FailedPing(p, cfg, other, kv, t);
      Undisturbed(p'.server.script, cfg, node) && SameClock(p.server.world.entries, p'.server.world.entries, cfg, node)
  {
    OtherKeys(cfg, other, node);
    if Expired(cfg, kv, t.decided) {
      AskKeepsClock(p.server, Only(NodeKey(other)), cfg, node);
      var (s, there) := Ask(p.server, Only(NodeKey(other)));
      if there.Some? {
        var ops := ReapOps(cfg, other, kv.value, there.value);
        OtherReportKeepsClock(p.(server := s), cfg, other, CRITICAL, ops, t, node);
      }
    } else {
      OtherReportKeepsClock(p, cfg, other, CRITICAL, FailedOps(cfg, other, kv, t.decided), t, node);
    }
  }

  lemma OtherPingKeepsClock(p: Prober, cfg: ProbeConfig, other: string, alive: bool, t: Times, node: string)
    requires Undisturbed(p.server.script, cfg, node) && other != node
    ensures var p' := Ping(p, cfg, other, alive, t);
      Undisturbed(p'.server.script, cfg, node) && SameClock(p.server.world.entries, p'.server.world.entries, cfg, node)
  {
    OtherKeys(cfg, other, node);
    var k := TrackKey(cfg, other);
    AskKeepsClock(p.server, Only(k), cfg, node);
    var (s, found) := Ask(p.server, Only(k));
    if alive {
      OtherReportKeepsClock(p.(server := s), cfg, other, PASSING, HealthyOps(cfg, other, Seen(found, k)), t, node);
    } else {
      OtherFailedPingKeepsClock(p.(server := s), cfg, other, Seen(found, k), t, node);
    }
  }

  // ---------------------------------------------------------------- whole runs

  datatype PingEvent = PingEvent(node: string, alive: bool, t: Times)

  function Pings(p: Prober, cfg: ProbeConfig, es: seq<PingEvent>): Prober {
    if es == [] then p
    else
      var e := es[|es| - 1];
      Ping(Pings(p, cfg, es[..|es| - 1]), cfg, e.node, e.alive, e.t)
  }

  /** The clock of the node could be read at each of its pings. */
  ghost predicate ClockReadable(p: Prober, cfg: ProbeConfig, es: seq<PingEvent>, node: string) {
    forall i | 0 <= i < |es| && es[i].node == node :: NextTurn(Pings(p, cfg, es[..i]).server.script).fate == Answer
  }

  /** When the current spell of failures began, told from the node's committed status alone. */
  function Spell(p: Prober, cfg: ProbeConfig, es: seq<PingEvent>, node: string): Option<int> {
    if es == [] then StampAt(p.server.world.entries, cfg, node)
    else
      var front, e := es[..|es| - 1], es[|es| - 1];
      SpellAfter(Spell(p, cfg, front, node), Critical(Pings(p, cfg, front).server.world.entries, node),
                 Critical(Pings(p, cfg, es).server.world.entries, node), e.t.decided)
  }

  /** Over any run of pings, whatever becomes of their transactions: the clock is there exactly while the committed
      status is critical, and says when the status became so. It is never refreshed in between. */
  lemma {:induction false} ClockIsSpellStart(p: Prober, cfg: ProbeConfig, es: seq<PingEvent>, node: string)
    requires Undisturbed(p.server.script, cfg, node) && ClockRight(p.server.world.entries, cfg, node)
    requires ClockReadable(p, cfg, es, node)
    ensures var p' := Pings(p, cfg, es);
      && Undisturbed(p'.server.script, cfg, node) && ClockRight(p'.server.world.entries, cfg, node)
      && StampAt(p'.server.world.entries, cfg, node) == Spell(p, cfg, es, node)
  {
    if es != [] {
      var front, e := es[..|es| - 1], es[|es| - 1];
      assert forall i | 0 <= i < |front| :: es[..i] == front[..i];
      ClockIsSpellStart(p, cfg, front, node);
      var q := Pings(p, cfg, front);
      if e.node == node {
        PingMovesClock(q, cfg, node, e.alive, e.t);
      } else {
        OtherPingKeepsClock(q, cfg, e.node, e.alive, e.t, node);
        SameClockMoves(q.server.world.entries, Pings(p, cfg, es).server.world.entries, cfg, node, e.t.decided);
      }
    }
  }

  // ---------------------------------------------------------------- what breaks the clock, and the debounce

  /** Without a clock in sight, a recovery of a registered node just reports it ... */
  lemma UnseenRecovery(m: Entries, cfg: ProbeConfig, node: string, n: nat, lenient: bool)
    requires NodeKey(node) in m
    ensures var (m', errors) := RunOps(m, HealthyOps(cfg, node, None), n, lenient);
      errors == [] && !Critical(m', node) && Get(m', TrackKey(cfg, node)) == Get(m, TrackKey(cfg, node))
  {
    var report := SetHealth(node, PASSING, NODE_ALIVE_STATUS);
    assert HealthyOps(cfg, node, None) == [report];
    OneOp(m, report, n, lenient);
  }

  /** ... and a failure starts one. */
  lemma UnseenFailure(m: Entries, cfg: ProbeConfig, node: string, at: int, n: nat, lenient: bool)
    requires NodeKey(node) in m
    ensures var (m', errors) := RunOps(m, FailedOps(cfg, node, None, at), n, lenient);
      errors == [] && Critical(m', node) && StampAt(m', cfg, node) == Some(at)
  {
    var start: Op := AnyOp.Set(TrackKey(cfg, node), Stamp(at));
    var report := SetHealth(node, CRITICAL, NODE_CRITICAL_STATUS);
    assert FailedOps(cfg, node, None, at) == [start, report];
    TwoOps(m, start, report, n, lenient);
  }

  lemma QuietSubmit(w: World, ops: seq<Op>, at: int)
    ensures var (m, errors) := RunOps(w.entries, ops, w.index + 1, w.lenientDelete);
      errors == [] ==> Submit(Server(w, []), ops, at).0.world.entries == m
  {
    assert ForeignSteps(w, []) == w;
  }

  /** Nobody writes, and the read of the clock gets no answer. */
  lemma UnreadPing(p: Prober, cfg: ProbeConfig, node: string, alive: bool, t: Times)
    requires p.server.script == [Turn([], LoseRequest)]
    requires ShouldUpdate(p.known, node, if alive then PASSING else CRITICAL, cfg.refreshInterval, t.seen)
    ensures var ops := if alive then HealthyOps(cfg, node, None) else FailedOps(cfg, node, None, t.decided);
      Ping(p, cfg, node, alive, t).server == Submit(Server(p.server.world, []), ops, t.decided).0
  {
    assert ForeignSteps(p.server.world, []) == p.server.world;
    assert LaterTurns(p.server.script) == [];
  }

  /** A clock that cannot be read is taken for absent. A failing ping then restarts it, and a succeeding one leaves it
      behind a passing check, if the transaction goes through. */
  lemma UnreadClockGoesWrong(p: Prober, cfg: ProbeConfig, node: string, alive: bool, t: Times)
    requires p.server.script == [Turn([], LoseRequest)]
    requires var e := p.server.world.entries;
      Critical(e, node) && TrackKey(cfg, node) in e && NodeKey(node) in e
    requires ShouldUpdate(p.known, node, if alive then PASSING else CRITICAL, cfg.refreshInterval, t.seen)
    ensures var e' := Ping(p, cfg, node, alive, t).server.world.entries;
      if alive then !Critical(e', node) && TrackKey(cfg, node) in e' else StampAt(e', cfg, node) == Some(t.decided)
  {
    var w := p.server.world;
    UnreadPing(p, cfg, node, alive, t);
    if alive {
      QuietSubmit(w, HealthyOps(cfg, node, None), t.decided);
      UnseenRecovery(w.entries, cfg, node, w.index + 1, w.lenientDelete);
    } else {
      QuietSubmit(w, FailedOps(cfg, node, None, t.decided), t.decided);
      UnseenFailure(w.entries, cfg, node, t.decided, w.index + 1, w.lenientDelete);
    }
  }

  /** Only a registered node can be reported, and it stays registered. */
  lemma NeedsNode(m: Entries, cfg: ProbeConfig, node: string, alive: bool, at: int, n: nat, lenient: bool)
    ensures var ops := if alive then HealthyOps(cfg, node, None) else FailedOps(cfg, node, None, at);
            var (m', errors) := RunOps(m, ops, n, lenient);
      errors == [] ==> NodeKey(node) in m && NodeKey(node) in m'
  {
    if alive {
      var report := SetHealth(node, PASSING, NODE_ALIVE_STATUS);
      assert HealthyOps(cfg, node, None) == [report];
      OneOp(m, report, n, lenient);
    } else {
      var start: Op := AnyOp.Set(TrackKey(cfg, node), Stamp(at));
      var report := SetHealth(node, CRITICAL, NODE_CRITICAL_STATUS);
      assert FailedOps(cfg, node, None, at) == [start, report];
      TwoOps(m, start, report, n, lenient);
    }
  }

  lemma UnseenRecoveryMoves(m: Entries, cfg: ProbeConfig, node: string, at: int, n: nat, lenient: bool)
    requires ClockRight(m, cfg, node)
    ensures var (m', errors) := RunOps(m, HealthyOps(cfg, node, None), n, lenient);
      errors == [] ==> (ClockMoves(m, m', cfg, node, at) <==> !Critical(m, node))
  {
    NeedsNode(m, cfg, node, true, at, n, lenient);
    if NodeKey(node) in m {
      UnseenRecovery(m, cfg, node, n, lenient);
    }
  }

  lemma UnseenFailureMoves(m: Entries, cfg: ProbeConfig, node: string, at: int, n: nat, lenient: bool)
    requires ClockRight(m, cfg, node)
    ensures var (m', errors) := RunOps(m, FailedOps(cfg, node, None, at), n, lenient);
      errors == [] ==>
        (ClockMoves(m, m', cfg, node, at) <==> !Critical(m, node) || StampAt(m, cfg, node) == Some(at))
  {
    NeedsNode(m, cfg, node, false, at, n, lenient);
    if NodeKey(node) in m {
      UnseenFailure(m, cfg, node, at, n, lenient);
    }
  }

  /** A report made without a clock in sight moves the clock rightly exactly if it is not applied, or the node was not
      failing (or, by chance, began to fail just then). */
  lemma UnseenReportMoves(s: Server, cfg: ProbeConfig, node: string, alive: bool, t: Times)
    requires Undisturbed(s.script, cfg, node) && ClockRight(s.world.entries, cfg, node)
    ensures var ops := if alive then HealthyOps(cfg, node, None) else FailedOps(cfg, node, None, t.decided);
            var e, e' := s.world.entries, Submit(s, ops, t.decided).0.world.entries;
      ClockMoves(e, e', cfg, node, t.decided)
      <==> || !Critical(e, node) || !TxnCommits(s, ops)
           || (!alive && StampAt(e, cfg, node) == Some(t.decided))
  {
    var ops := if alive then HealthyOps(cfg, node, None) else FailedOps(cfg, node, None, t.decided);
    var w1 := ForeignSteps(s.world, NextTurn(s.script).writes);
    TurnKeepsClock(s, cfg, node);
    SameMoves(s.world.entries, w1.entries, w1.entries, cfg, node, t.decided);
    SubmitMoves(s, ops, t.decided, cfg, node);
    if alive {
      UnseenRecoveryMoves(w1.entries, cfg, node, t.decided, w1.index + 1, w1.lenientDelete);
    } else {
      UnseenFailureMoves(w1.entries, cfg, node, t.decided, w1.index + 1, w1.lenientDelete);
    }
  }

  /** A ping moves the clock rightly exactly if it could read it, or the node was not failing, or the result is
      debounced, or the report is not applied (or the node began to fail just then, by the clock). */
  lemma WhenTheClockGoesWrong(p: Prober, cfg: ProbeConfig, node: string, alive: bool, t: Times)
    requires Undisturbed(p.server.script, cfg, node) && ClockRight(p.server.world.entries, cfg, node)
    ensures var status := if alive then PASSING else CRITICAL;
            var ops := if alive then HealthyOps(cfg, node, None) else FailedOps(cfg, node, None, t.decided);
            var (s, found) := Ask(p.server, Only(TrackKey(cfg, node)));
            var e, e' := p.server.world.entries, Ping(p, cfg, node, alive, t).server.world.entries;
      ClockMoves(e, e', cfg, node, t.decided)
      <==> || NextTurn(p.server.script).fate == Answer
           || !Critical(e, node)
           || !ShouldUpdate(p.known, node, status, cfg.refreshInterval, t.seen)
           || !TxnCommits(s, ops)
           || (!alive && StampAt(e, cfg, node) == Some(t.decided))
  {
    var e := p.server.world.entries;
    if NextTurn(p.server.script).fate == Answer {
      PingMovesClock(p, cfg, node, alive, t);
    } else {
      AskKeepsClock(p.server, Only(TrackKey(cfg, node)), cfg, node);
      var s := Ask(p.server, Only(TrackKey(cfg, node))).0;
      SameClockMoves(e, s.world.entries, cfg, node, t.decided);
      UnseenReportMoves(s, cfg, node, alive, t);
    }
  }

  /** What the agent remembers is what the catalog says, as far as there is a check. */
  ghost predicate KnowsStatus(p: Prober, node: string) {
    var e := p.server.world.entries;
    && (HealthKey(node) in e ==> NodeKey(node) in e)
    && (node in p.known && HealthKey(node) in e ==> StatusIs(e, node, p.known[node].status))
  }

  /** The node's check as its pings report it. */
  predicate Reported(e: Entries, node: string, alive: bool) {
    && HealthKey(node) in e && e[HealthKey(node)].val.CheckVal?
    && var c := e[HealthKey(node)].val.check;
       && (c.node, c.checkID, c.serviceID) == (node, "externalNodeHealth", "")
       && (c.status, c.output)
          == if alive then ("passing", "Node alive or reachable") else ("critical", "Node not live or unreachable")
  }

  predicate StatusIs(e: Entries, node: string, status: string) {
    && NodeKey(node) in e && HealthKey(node) in e
    && e[HealthKey(node)].val.CheckVal? && e[HealthKey(node)].val.check.status == status
  }

  /** No reply gets lost after its transaction was applied. */
  ghost predicate NoLostReplies(script: seq<Turn>) {
    forall turn | turn in script :: turn.fate != LoseReply
  }

  /** A transaction is known to have succeeded exactly if it was applied and acknowledged. */
  lemma SubmitKnows(s: Server, ops: seq<Op>, at: int)
    ensures var (s', reply) := Submit(s, ops, at);
            var w1 := ForeignSteps(s.world, NextTurn(s.script).writes);
      && (Succeeded(reply) <==> TxnCommits(s, ops) && NextTurn(s.script).fate == Answer)
      && s'.world.entries == if TxnCommits(s, ops) then RunOps(w1.entries, ops, w1.index + 1, w1.lenientDelete).0
                             else w1.entries
  {
  }

  lemma HealthyIsSet(m: Entries, cfg: ProbeConfig, node: string, kv: Option<Entry>, n: nat, lenient: bool)
    ensures var (m', errors) := RunOps(m, HealthyOps(cfg, node, kv), n, lenient);
      errors == [] ==> StatusIs(m', node, PASSING)
  {
    var report := SetHealth(node, PASSING, NODE_ALIVE_STATUS);
    if kv.Some? {
      var clear := AnyOp.DeleteCas(TrackKey(cfg, node), kv.value.index);
      assert HealthyOps(cfg, node, kv) == [clear, report];
      TwoOps(m, clear, report, n, lenient);
    } else {
      assert HealthyOps(cfg, node, kv) == [report];
      OneOp(m, report, n, lenient);
    }
  }

  lemma FailedIsSet(m: Entries, cfg: ProbeConfig, node: string, kv: Option<Entry>, at: int, n: nat, lenient: bool)
    ensures var (m', errors) := RunOps(m, FailedOps(cfg, node, kv, at), n, lenient);
      errors == [] ==> StatusIs(m', node, CRITICAL)
  {
    var report := SetHealth(node, CRITICAL, NODE_CRITICAL_STATUS);
    if kv.None? {
      var start: Op := AnyOp.Set(TrackKey(cfg, node), Stamp(at));
      assert FailedOps(cfg, node, kv, at) == [start, report];
      TwoOps(m, start, report, n, lenient);
    } else {
      assert FailedOps(cfg, node, kv, at) == [report];
      OneOp(m, report, n, lenient);
    }
  }

  /** A reaped node has no check left, and one that was not in the catalog had none. */
  lemma ReapedIsGone(m: Entries, cfg: ProbeConfig, node: string, kv: Entry, found: Entries, n: nat, lenient: bool)
    requires NodeKey(node) in found || HealthKey(node) !in m
    ensures var (m', errors) := RunOps(m, ReapOps(cfg, node, kv, found), n, lenient);
      errors == [] ==> HealthKey(node) !in m'
  {
    var clear := AnyOp.DeleteCas(TrackKey(cfg, node), kv.index);
    if NodeKey(node) in found {
      var drop := AnyOp.DeleteCas(NodeKey(node), found[NodeKey(node)].index);
      assert ReapOps(cfg, node, kv, found) == [clear, drop];
      TwoOps(m, clear, drop, n, lenient);
    } else {
      assert ReapOps(cfg, node, kv, found) == [clear];
      OneOp(m, clear, n, lenient);
    }
  }

  /** A report is applied, and the reply to it is lost. */
  predicate Unheard(s: Server, ops: seq<Op>) {
    TxnCommits(s, ops) && NextTurn(s.script).fate == LoseReply
  }

  /** After a report the agent knows the status exactly unless the report is unheard and contradicts what it knew. */
  lemma ReportKnows(p: Prober, cfg: ProbeConfig, node: string, status: string, ops: seq<Op>, t: Times)
    requires Undisturbed(p.server.script, cfg, node) && KnowsStatus(p, node)
    requires TxnCommits(p.server, ops) ==> StatusIs(Applied(p.server, ops), node, status)
    ensures KnowsStatus(Report(p, node, status, ops, t), node)
            <==> !(Unheard(p.server, ops) && node in p.known && p.known[node].status != status)
  {
    SubmitKnows(p.server, ops, t.decided);
    TurnKeepsClock(p.server, cfg, node);
  }

  lemma ReapKnows(p: Prober, cfg: ProbeConfig, node: string, ops: seq<Op>, t: Times)
    requires Undisturbed(p.server.script, cfg, node) && KnowsStatus(p, node)
    requires TxnCommits(p.server, ops) ==> HealthKey(node) !in Applied(p.server, ops)
    ensures KnowsStatus(Report(p, node, CRITICAL, ops, t), node)
  {
    SubmitKnows(p.server, ops, t.decided);
    TurnKeepsClock(p.server, cfg, node);
  }

  /** What a ping sends in the end, to which server: nothing, a status, or the end of the node. */
  datatype Sending = Nothing | Status(server: Server, ops: seq<Op>) | End(server: Server, ops: seq<Op>)

  function SentBy(p: Prober, cfg: ProbeConfig, node: string, alive: bool, t: Times): Sending {
    var (s, found) := Ask(p.server, Only(TrackKey(cfg, node)));
    var kv := Seen(found, TrackKey(cfg, node));
    if !ShouldUpdate(p.known, node, if alive then PASSING else CRITICAL, cfg.refreshInterval, t.seen) then Nothing
    else if alive then Status(s, HealthyOps(cfg, node, kv))
    else if !Expired(cfg, kv, t.decided) then Status(s, FailedOps(cfg, node, kv, t.decided))
    else
      var (s2, there) := Ask(s, Only(NodeKey(node)));
      if there == None then Nothing else End(s2, ReapOps(cfg, node, kv.value, there.value))
  }

  lemma AskKeepsKnowing(p: Prober, scope: Scope, cfg: ProbeConfig, node: string)
    requires Undisturbed(p.server.script, cfg, node) && KnowsStatus(p, node)
    ensures var s := Ask(p.server, scope).0; Undisturbed(s.script, cfg, node) && KnowsStatus(p.(server := s), node)
  {
    AskKeepsClock(p.server, scope, cfg, node);
  }

  lemma EndKnows(p: Prober, cfg: ProbeConfig, node: string, kv: Entry, t: Times)
    requires Undisturbed(p.server.script, cfg, node) && KnowsStatus(p, node)
    ensures var (s, found) := Ask(p.server, Only(NodeKey(node)));
      && KnowsStatus(p.(server := s), node)
      && (found.Some? ==>
            KnowsStatus(Report(p.(server := s), node, CRITICAL, ReapOps(cfg, node, kv, found.value), t), node))
  {
    AskKeepsKnowing(p, Only(NodeKey(node)), cfg, node);
    AskKeepsClock(p.server, Only(NodeKey(node)), cfg, node);
    var (s, found) := Ask(p.server, Only(NodeKey(node)));
    if found.Some? {
      var w1 := ForeignSteps(s.world, NextTurn(s.script).writes);
      TurnKeepsClock(s, cfg, node);
      ReapedIsGone(w1.entries, cfg, node, kv, found.value, w1.index + 1, w1.lenientDelete);
      ReapKnows(p.(server := s), cfg, node, ReapOps(cfg, node, kv, found.value), t);
    }
  }

  /** So after a report of a recovery, or of a failure whose clock has not run out. */
  lemma StatusKnows(p: Prober, cfg: ProbeConfig, node: string, alive: bool, kv: Option<Entry>, t: Times)
    requires Undisturbed(p.server.script, cfg, node) && KnowsStatus(p, node)
    ensures var status := if alive then PASSING else CRITICAL;
            var ops := if alive then HealthyOps(cfg, node, kv) else FailedOps(cfg, node, kv, t.decided);
      KnowsStatus(Report(p, node, status, ops, t), node)
      <==> !(Unheard(p.server, ops) && node in p.known && p.known[node].status != status)
  {
    var w1 := ForeignSteps(p.server.world, NextTurn(p.server.script).writes);
    if alive {
      HealthyIsSet(w1.entries, cfg, node, kv, w1.index + 1, w1.lenientDelete);
      ReportKnows(p, cfg, node, PASSING, HealthyOps(cfg, node, kv), t);
    } else {
      FailedIsSet(w1.entries, cfg, node, kv, t.decided, w1.index + 1, w1.lenientDelete);
      ReportKnows(p, cfg, node, CRITICAL, FailedOps(cfg, node, kv, t.decided), t);
    }
  }

  /** A ping makes the agent lose track of the committed status exactly if it sends another status than the one
      remembered, and that is applied, and the reply is lost. */
  lemma WhenKnowledgeIsLost(p: Prober, cfg: ProbeConfig, node: string, alive: bool, t: Times)
    requires Undisturbed(p.server.script, cfg, node) && KnowsStatus(p, node)
    ensures var x := SentBy(p, cfg, node, alive, t);
      KnowsStatus(Ping(p, cfg, node, alive, t), node)
      <==> !(&& x.Status? && Unheard(x.server, x.ops)
             && node in p.known && p.known[node].status != if alive then PASSING else CRITICAL)
  {
    var k := TrackKey(cfg, node);
    AskKeepsKnowing(p, Only(k), cfg, node);
    var (s, found) := Ask(p.server, Only(k));
    var q, kv := p.(server := s), Seen(found, k);
    StatusKnows(q, cfg, node, alive, kv, t);
    if !alive && Expired(cfg, kv, t.decided) {
      EndKnows(q, cfg, node, kv.value, t);
    }
  }

  /** Requests and replies stay what they are. */
  lemma PingsOn(p: Prober, cfg: ProbeConfig, node: string, alive: bool, t: Times)
    ensures var script := Ping(p, cfg, node, alive, t).server.script;
      (forall turn | turn in script :: turn in p.server.script)
    ensures var x := SentBy(p, cfg, node, alive, t);
      x.Status? && x.server.script != [] ==> NextTurn(x.server.script) in p.server.script
  {
  }

  lemma PingKeepsKnowing(p: Prober, cfg: ProbeConfig, node: string, alive: bool, t: Times)
    requires Undisturbed(p.server.script, cfg, node) && NoLostReplies(p.server.script) && KnowsStatus(p, node)
    ensures var p' := Ping(p, cfg, node, alive, t);
      Undisturbed(p'.server.script, cfg, node) && NoLostReplies(p'.server.script) && KnowsStatus(p', node)
  {
    WhenKnowledgeIsLost(p, cfg, node, alive, t);
    PingsOn(p, cfg, node, alive, t);
  }

  /** The debounce hides nothing, as long as no reply is lost: over any run of pings of the node, a ping that is not
      acted on has the result that the catalog already says (or the check is gone). Clocks need not be readable for
      that. */
  lemma {:induction false} DebounceHidesNothing(p: Prober, cfg: ProbeConfig, es: seq<PingEvent>, node: string,
                                                status: string, now: int)
    requires Undisturbed(p.server.script, cfg, node) && NoLostReplies(p.server.script) && KnowsStatus(p, node)
    requires forall e | e in es :: e.node == node
    ensures var p' := Pings(p, cfg, es);
      && Undisturbed(p'.server.script, cfg, node) && NoLostReplies(p'.server.script) && KnowsStatus(p', node)
      && (HealthKey(node) in p'.server.world.entries ==>
            || ShouldUpdate(p'.known, node, status, cfg.refreshInterval, now)
            || StatusIs(p'.server.world.entries, node, status))
  {
    if es != [] {
      var front, e := es[..|es| - 1], es[|es| - 1];
      assert e in es;
      DebounceHidesNothing(p, cfg, front, node, status, now);
      PingKeepsKnowing(Pings(p, cfg, front), cfg, node, e.alive, e.t);
    }
  }

  /** A lost reply does hide a change. The recovery of a failing node is committed but not known to be; the node fails
      again; and until the memory of the first failure expires, its failing pings are not acted on: the catalog goes
      on saying that the node is passing. */
  lemma {:induction false} LostReplyHidesFailure(p: Prober, cfg: ProbeConfig, node: string, t: Times,
                                                 es: seq<PingEvent>)
    requires p.server.script == [Turn([], Answer), Turn([], LoseReply)]
    requires NodeKey(node) in p.server.world.entries && TrackKey(cfg, node) !in p.server.world.entries
    requires node in p.known && p.known[node].status == CRITICAL
    requires forall e | e in es :: e.node == node && !e.alive && e.t.seen - p.known[node].time < cfg.refreshInterval
    ensures var p' := Pings(Ping(p, cfg, node, true, t), cfg, es);
      && StatusIs(p'.server.world.entries, node, PASSING) && TrackKey(cfg, node) !in p'.server.world.entries
      && p'.known == p.known && p'.server.script == []
  {
    if es == [] {
      var w := p.server.world;
      QuietRead(p.server, cfg, node);
      var s := Ask(p.server, Only(TrackKey(cfg, node))).0;
      assert ForeignSteps(s.world, []) == s.world;
      HealthyIsSet(s.world.entries, cfg, node, None, s.world.index + 1, s.world.lenientDelete);
      UnseenRecovery(s.world.entries, cfg, node, s.world.index + 1, s.world.lenientDelete);
    } else {
      var front, e := es[..|es| - 1], es[|es| - 1];
      assert e in es;
      LostReplyHidesFailure(p, cfg, node, t, front);
      var q := Pings(Ping(p, cfg, node, true, t), cfg, front);
      assert ForeignSteps(q.server.world, []) == q.server.world;
    }
  }

  lemma QuietRead(s: Server, cfg: ProbeConfig, node: string)
    requires s.script != [] && s.script[0] == Turn([], Answer) && TrackKey(cfg, node) !in s.world.entries
    ensures var (s', found) := Ask(s, Only(TrackKey(cfg, node)));
      && s'.script == s.script[1..] && s'.world.entries == s.world.entries
      && s'.world.index == s.world.index && s'.world.lenientDelete == s.world.lenientDelete
      && Seen(found, TrackKey(cfg, node)) == None
  {
    assert ForeignSteps(s.world, []) == s.world;
  }

  // ---------------------------------------------------------------- with nobody interfering

  lemma HealthyRuns(m: Entries, cfg: ProbeConfig, node: string, n: nat, lenient: bool)
    requires NodeKey(node) in m
    ensures var (m', errors) := RunOps(m, HealthyOps(cfg, node, Get(m, TrackKey(cfg, node))), n, lenient);
      errors == [] && Reported(m', node, true) && NodeKey(node) in m' && TrackKey(cfg, node) !in m'
  {
    var report, kv := SetHealth(node, PASSING, NODE_ALIVE_STATUS), Get(m, TrackKey(cfg, node));
    if kv.Some? {
      var clear := AnyOp.DeleteCas(TrackKey(cfg, node), kv.value.index);
      assert HealthyOps(cfg, node, kv) == [clear, report];
      TwoOps(m, clear, report, n, lenient);
    } else {
      assert HealthyOps(cfg, node, kv) == [report];
      OneOp(m, report, n, lenient);
    }
  }

  lemma FailedRuns(m: Entries, cfg: ProbeConfig, node: string, at: int, n: nat, lenient: bool)
    requires NodeKey(node) in m
    ensures var kv := Get(m, TrackKey(cfg, node));
            var (m', errors) := RunOps(m, FailedOps(cfg, node, kv, at), n, lenient);
      && errors == [] && Reported(m', node, false) && NodeKey(node) in m'
      && StampAt(m', cfg, node) == if kv.Some? then StampAt(m, cfg, node) else Some(at)
  {
    var report, kv := SetHealth(node, CRITICAL, NODE_CRITICAL_STATUS), Get(m, TrackKey(cfg, node));
    if kv.None? {
      var start: Op := AnyOp.Set(TrackKey(cfg, node), Stamp(at));
      assert FailedOps(cfg, node, kv, at) == [start, report];
      TwoOps(m, start, report, n, lenient);
    } else {
      assert FailedOps(cfg, node, kv, at) == [report];
      OneOp(m, report, n, lenient);
    }
  }

  lemma ReapRuns(m: Entries, cfg: ProbeConfig, node: string, n: nat, lenient: bool)
    requires NodeKey(node) in m && TrackKey(cfg, node) in m
    ensures var ops := ReapOps(cfg, node, m[TrackKey(cfg, node)], Visible(m, Only(NodeKey(node))));
            var (m', errors) := RunOps(m, ops, n, lenient);
      errors == [] && NodeKey(node) !in m' && HealthKey(node) !in m' && TrackKey(cfg, node) !in m'
  {
    var kv, found := m[TrackKey(cfg, node)], Visible(m, Only(NodeKey(node)));
    var clear := AnyOp.DeleteCas(TrackKey(cfg, node), kv.index);
    var drop := AnyOp.DeleteCas(NodeKey(node), found[NodeKey(node)].index);
    assert ReapOps(cfg, node, kv, found) == [clear, drop];
    TwoOps(m, clear, drop, n, lenient);
  }

  lemma QuietReport(p: Prober, node: string, status: string, ops: seq<Op>, t: Times)
    requires p.server.script == []
    requires var w := p.server.world; RunOps(w.entries, ops, w.index + 1, w.lenientDelete).1 == []
    ensures var p', w := Report(p, node, status, ops, t), p.server.world;
      && p'.server.world.entries == RunOps(w.entries, ops, w.index + 1, w.lenientDelete).0
      && p'.known == p.known[node := LastKnown(status, t.done)]
  {
    QuietCommit(p.server, ops, t.decided);
  }

  lemma QuietFailure(p: Prober, cfg: ProbeConfig, node: string, t: Times)
    requires p.server.script == [] && NodeKey(node) in p.server.world.entries
    requires ShouldUpdate(p.known, node, CRITICAL, cfg.refreshInterval, t.seen)
    ensures var e := p.server.world.entries; var kv := Get(e, TrackKey(cfg, node));
            var p' := FailedPing(p, cfg, node, kv, t); var e' := p'.server.world.entries;
      && p'.known == p.known[node := LastKnown(CRITICAL, t.done)]
      && if Expired(cfg, kv, t.decided) then
           NodeKey(node) !in e' && HealthKey(node) !in e' && TrackKey(cfg, node) !in e'
         else
           && Reported(e', node, false) && NodeKey(node) in e'
           && StampAt(e', cfg, node) == if kv.Some? then StampAt(e, cfg, node) else Some(t.decided)
  {
    var w, kv := p.server.world, Get(p.server.world.entries, TrackKey(cfg, node));
    if Expired(cfg, kv, t.decided) {
      QuietAsk(p.server, Only(NodeKey(node)));
      var (s, there) := Ask(p.server, Only(NodeKey(node)));
      ReapRuns(w.entries, cfg, node, s.world.index + 1, s.world.lenientDelete);
      QuietReport(p.(server := s), node, CRITICAL, ReapOps(cfg, node, kv.value, there.value), t);
    } else {
      FailedRuns(w.entries, cfg, node, t.decided, w.index + 1, w.lenientDelete);
      QuietReport(p, node, CRITICAL, FailedOps(cfg, node, kv, t.decided), t);
    }
  }

  /** A ping of a registered node, with nobody interfering, whose result is not remembered, or differs from the one
      remembered, or comes when that has been remembered for the refresh interval: it is applied and remembered. The
      catalog has its result, and the clock is cleared, started or kept; or, if the clock had been running for longer
      than the reconnect timeout, the node is gone with its check and its clock. */
  lemma QuietPing(p: Prober, cfg: ProbeConfig, node: string, alive: bool, t: Times)
    requires p.server.script == [] && NodeKey(node) in p.server.world.entries
    requires node in p.known ==>
      || t.seen - p.known[node].time >= cfg.refreshInterval
      || p.known[node].status != if alive then PASSING else CRITICAL
    ensures var e, p' := p.server.world.entries, Ping(p, cfg, node, alive, t);
            var e', k := p'.server.world.entries, TrackKey(cfg, node);
      && p'.known == p.known[node := LastKnown(if alive then PASSING else CRITICAL, t.done)]
      && (if alive then Reported(e', node, true) && NodeKey(node) in e' && k !in e'
          else if k in e && t.decided - e[k].val.time > cfg.reconnectTimeout then
            NodeKey(node) !in e' && HealthKey(node) !in e' && k !in e'
          else
            && Reported(e', node, false) && NodeKey(node) in e'
            && k in e' && e'[k].val.time == if k in e then e[k].val.time else t.decided)
  {
    var k := TrackKey(cfg, node);
    QuietAsk(p.server, Only(k));
    var (s, found) := Ask(p.server, Only(k));
    var q, e, kv := p.(server := s), s.world.entries, Get(s.world.entries, k);
    assert Seen(found, k) == kv;
    if alive {
      HealthyRuns(e, cfg, node, s.world.index + 1, s.world.lenientDelete);
      QuietReport(q, node, PASSING, HealthyOps(cfg, node, kv), t);
    } else {
      QuietFailure(q, cfg, node, t);
    }
  }

  /** A clock that has run out goes even if its node is no longer registered. */
  lemma OrphanedClockGoes(p: Prober, cfg: ProbeConfig, node: string, t: Times)
    requires p.server.script == [] && NodeKey(node) !in p.server.world.entries
    requires node in p.known ==> t.seen - p.known[node].time >= cfg.refreshInterval || p.known[node].status != CRITICAL
    requires var e, k := p.server.world.entries, TrackKey(cfg, node);
      k in e && t.decided - e[k].val.time > cfg.reconnectTimeout
    ensures TrackKey(cfg, node) !in Ping(p, cfg, node, false, t).server.world.entries
  {
    var k := TrackKey(cfg, node);
    QuietAsk(p.server, Only(k));
    var (s, found) := Ask(p.server, Only(k));
    QuietAsk(s, Only(NodeKey(node)));
    var (s2, there) := Ask(s, Only(NodeKey(node)));
    var w, clear := s2.world, AnyOp.DeleteCas(k, found.value[k].index);
    assert ReapOps(cfg, node, found.value[k], there.value) == [clear];
    OneOp(w.entries, clear, w.index + 1, w.lenientDelete);
    QuietReport(p.(server := s2), node, CRITICAL, [clear], t);
  }

  /** And one whose result is the one remembered, before that: nothing is sent but the read of the clock. */
  lemma DebouncedPing(p: Prober, cfg: ProbeConfig, node: string, alive: bool, t: Times)
    requires node in p.known && t.seen - p.known[node].time < cfg.refreshInterval
    requires p.known[node].status == if alive then PASSING else CRITICAL
    ensures Ping(p, cfg, node, alive, t) == p.(server := Ask(p.server, Only(TrackKey(cfg, node))).0)
  {
  }

  /** So what a lost reply hides does not stay hidden: the first failing ping at or after the refresh interval makes the
      catalog say that the node is failing. */
  lemma HiddenFailureComesOut(p: Prober, cfg: ProbeConfig, node: string, t: Times, es: seq<PingEvent>, last: PingEvent)
    requires p.server.script == [Turn([], Answer), Turn([], LoseReply)]
    requires NodeKey(node) in p.server.world.entries && TrackKey(cfg, node) !in p.server.world.entries
    requires node in p.known && p.known[node].status == CRITICAL
    requires forall e | e in es :: e.node == node && !e.alive && e.t.seen - p.known[node].time < cfg.refreshInterval
    requires last.node == node && !last.alive && last.t.seen - p.known[node].time >= cfg.refreshInterval
    ensures var p1 := Ping(p, cfg, node, true, t);
      && StatusIs(Pings(p1, cfg, es).server.world.entries, node, PASSING)
      && StatusIs(Pings(p1, cfg, es + [last]).server.world.entries, node, CRITICAL)
  {
    LostReplyHidesFailure(p, cfg, node, t, es);
    var q := Pings(Ping(p, cfg, node, true, t), cfg, es);
    assert (es + [last])[..|es|] == es;
    QuietPing(q, cfg, node, false, last.t);
  }
}
