/** Consul as ESM sees it: entries with modify indices, reads, and atomic transactions with compare-and-set
    operations, while other writers and the network do what they like. This is the environment contract. */
module Store {
  import opened Options
  import opened Definitions

  datatype Key = CheckKey(node: string, id: string) | KvKey(path: string) | NodeKey(name: string)

  datatype Val = CheckVal(check: HealthCheck) | Stamp(time: int) | NodeVal

  datatype Entry = Entry(val: Val, index: nat)

  /** Checks hold checks, KV keys times, and nodes nothing of interest here. */
  predicate Fits(k: Key, v: Val) {
    (k.CheckKey? <==> v.CheckVal?) && (k.KvKey? <==> v.Stamp?)
  }

  type Entries = m: map<Key, Entry> | forall k | k in m :: Fits(k, m[k].val)

  datatype AnyOp = Cas(key: Key, index: nat, val: Val) | Set(key: Key, val: Val) | DeleteCas(key: Key, index: nat)

  type Op = op: AnyOp | !op.DeleteCas? ==> Fits(op.key, op.val) witness DeleteCas(NodeKey(""), 0)

  datatype AnyWrite = Put(key: Key, val: Val) | Remove(key: Key)

  /** What other writers do. */
  type Write = w: AnyWrite | w.Put? ==> Fits(w.key, w.val) witness Remove(NodeKey(""))

  /** What has happened, in order. A commit carries the entries it found and the time its sender decided on it. */
  datatype Event =
    | Foreign(write: Write)
    | Read(found: Entries)
    | Commit(ops: seq<Op>, pre: Entries, at: int)

  /** `lenientDelete`: whether a compare-and-delete of an absent KV key counts as done instead of failing. */
  datatype World = World(entries: Entries, index: nat, trace: seq<Event>, lenientDelete: bool)

  // ---------------------------------------------------------------- single steps

  /** Deleting a node deletes its checks. */
  predicate Covers(k: Key, other: Key) {
    k == other || (k.NodeKey? && other.CheckKey? && other.node == k.name)
  }

  function Without(m: Entries, k: Key): Entries {
    map o | o in m && !Covers(k, o) :: m[o]
  }

  function ForeignStep(w: World, write: Write): World {
    var entries := match write
      case Put(k, v) => w.entries[k := Entry(v, w.index + 1)]
      case Remove(k) => Without(w.entries, k);
    w.(entries := entries, index := w.index + 1, trace := w.trace + [Foreign(write)])
  }

  function ForeignSteps(w: World, writes: seq<Write>): World {
    if writes == [] then w else ForeignStep(ForeignSteps(w, writes[..|writes| - 1]), writes[|writes| - 1])
  }

  /** What a request asks for: all checks of a node, or one entry. */
  datatype Scope = ChecksOf(node: string) | Only(key: Key)

  predicate InScope(s: Scope, k: Key) {
    match s
    case ChecksOf(node) => k.CheckKey? && k.node == node
    case Only(key) => k == key
  }

  function Visible(m: Entries, s: Scope): Entries {
    map k | k in m && InScope(s, k) :: m[k]
  }

  /** An operation applied to the working copy of a transaction that will have index n; None when it fails. */
  function ApplyOp(m: Entries, op: Op, n: nat, lenient: bool): Option<Entries> {
    match op
    case Cas(k, i, v) => if k in m && m[k].index == i then Some(m[k := Entry(v, n)]) else None
    case Set(k, v) => if k.CheckKey? && NodeKey(k.node) !in m then None else Some(m[k := Entry(v, n)])
    case DeleteCas(k, i) =>
      if k !in m then (if lenient && k.KvKey? then Some(m) else None)
      else if m[k].index == i then Some(Without(m, k)) else None
  }

  /** A failed operation: its position, and whether the reason given is a stale index. */
  datatype TxnError = TxnError(opIndex: nat, stale: bool)

  /** The working copy after the operations, and the errors met on the way. */
  function RunOps(m: Entries, ops: seq<Op>, n: nat, lenient: bool): (Entries, seq<TxnError>) {
    if ops == [] then (m, [])
    else
      var last := |ops| - 1;
      var (m1, errors) := RunOps(m, ops[..last], n, lenient);
      match ApplyOp(m1, ops[last], n, lenient)
      case Some(m2) => (m2, errors)
      case None => (m1, errors + [TxnError(last, !ops[last].Set?)])
  }

  /** What becomes of a request: answered; lost on the way there, or on the way back; or refused. */
  datatype Fate = Answer | LoseRequest | LoseReply | Refuse(errors: seq<TxnError>)

  /** What the outside does at one request: first other writers write, then the request meets its fate. */
  datatype Turn = Turn(writes: seq<Write>, fate: Fate)

  datatype Reply = TransportError | Reply(ok: bool, errors: seq<TxnError>)

  function FetchStep(w: World, turn: Turn, s: Scope): (World, Option<Entries>) {
    var w1 := ForeignSteps(w, turn.writes);
    if turn.fate != Answer then (w1, None)
    else
      var found := Visible(w1.entries, s);
      (w1.(trace := w1.trace + [Read(found)]), Some(found))
  }

  function TxnStep(w: World, turn: Turn, ops: seq<Op>, at: int): (World, Reply) {
    var w1 := ForeignSteps(w, turn.writes);
    match turn.fate
    case LoseRequest => (w1, TransportError)
    case Refuse(errors) => (w1, Reply(false, errors))
    case _ =>
      var (m, errors) := RunOps(w1.entries, ops, w1.index + 1, w1.lenientDelete);
      var w2 := if errors != [] then w1
                else w1.(entries := m, index := w1.index + 1, trace := w1.trace + [Commit(ops, w1.entries, at)]);
      (w2, if turn.fate == Answer then Reply(errors == [], errors) else TransportError)
  }

  // ---------------------------------------------------------------- what the trace shows

  predicate WriteTouches(write: Write, k: Key) {
    match write
    case Put(key, _) => key == k
    case Remove(key) => Covers(key, k)
  }

  predicate OpTouches(op: Op, k: Key) {
    if op.DeleteCas? then Covers(op.key, k) else op.key == k
  }

  predicate Touches(e: Event, k: Key) {
    match e
    case Foreign(write) => WriteTouches(write, k)
    case Read(_) => false
    case Commit(ops, _, _) => exists op | op in ops :: OpTouches(op, k)
  }

  /** Nothing touches k after event j and before event i. */
  ghost predicate Untouched(trace: seq<Event>, j: int, i: int, k: Key) {
    forall m | 0 <= m < |trace| && j < m < i :: !Touches(trace[m], k)
  }

  /** Event j is a read that found k as `entry`. */
  predicate Found(trace: seq<Event>, j: int, k: Key, entry: Entry) {
    0 <= j < |trace| && trace[j].Read? && k in trace[j].found && trace[j].found[k] == entry
  }

  /** A world whose indices mean versions: no index is ahead of the world's, and an entry that still has the index some
      read saw is the entry that read saw, untouched since. */
  ghost predicate Sound(w: World) {
    && (forall k | k in w.entries :: w.entries[k].index <= w.index)
    && (forall j, k, e | Found(w.trace, j, k, e) :: e.index <= w.index)
    && (forall j, k, e | Found(w.trace, j, k, e) && k in w.entries && w.entries[k].index == e.index ::
          w.entries[k] == e && Untouched(w.trace, j, |w.trace|, k))
  }

  lemma ForeignStaysSound(w: World, write: Write)
    requires Sound(w)
    ensures Sound(ForeignStep(w, write))
  {
    var w' := ForeignStep(w, write);
    forall j, k, e | Found(w'.trace, j, k, e) ensures Found(w.trace, j, k, e) {
    }
    forall j, k, e | Found(w'.trace, j, k, e) && k in w'.entries && w'.entries[k].index == e.index
      ensures w'.entries[k] == e && Untouched(w'.trace, j, |w'.trace|, k)
    {
      assert Found(w.trace, j, k, e);
    }
  }

  lemma {:induction false} ForeignStepsStaySound(w: World, writes: seq<Write>)
    requires Sound(w)
    ensures var w' := ForeignSteps(w, writes);
      && Sound(w') && w.trace <= w'.trace && w.index <= w'.index && w'.lenientDelete == w.lenientDelete
      && forall i | |w.trace| <= i < |w'.trace| :: w'.trace[i].Foreign?
  {
    if writes != [] {
      ForeignStepsStaySound(w, writes[..|writes| - 1]);
      ForeignStaysSound(ForeignSteps(w, writes[..|writes| - 1]), writes[|writes| - 1]);
    }
  }

  lemma FetchStaysSound(w: World, turn: Turn, s: Scope)
    requires Sound(w)
    ensures var (w', r) := FetchStep(w, turn, s);
      && Sound(w') && w.trace <= w'.trace && w'.lenientDelete == w.lenientDelete
      && (r.Some? ==> w'.trace != [] && w'.trace[|w'.trace| - 1] == Read(r.value))
  {
    ForeignStepsStaySound(w, turn.writes);
    var w1 := ForeignSteps(w, turn.writes);
    var (w', r) := FetchStep(w, turn, s);
    if r.Some? {
      forall j, k, e | Found(w'.trace, j, k, e)
        ensures e.index <= w'.index
        ensures k in w'.entries && w'.entries[k].index == e.index ==>
          w'.entries[k] == e && Untouched(w'.trace, j, |w'.trace|, k)
      {
        if j < |w1.trace| {
          assert Found(w1.trace, j, k, e);
        }
      }
    }
  }

  /** Entries that a successful run of operations has left with an old index are untouched by all of them. */
  lemma {:induction false} OldEntriesAreUntouched(m: Entries, ops: seq<Op>, n: nat, lenient: bool, k: Key)
    requires RunOps(m, ops, n, lenient).1 == []
    ensures var m' := RunOps(m, ops, n, lenient).0;
      k in m' && m'[k].index != n ==> k in m && m'[k] == m[k] && forall op | op in ops :: !OpTouches(op, k)
  {
    if ops != [] {
      var last := |ops| - 1;
      OldEntriesAreUntouched(m, ops[..last], n, lenient, k);
      assert ops == ops[..last] + [ops[last]];
    }
  }

  lemma {:induction false} UntouchedEntriesStay(m: Entries, ops: seq<Op>, n: nat, lenient: bool, k: Key)
    requires RunOps(m, ops, n, lenient).1 == [] && forall op | op in ops :: !OpTouches(op, k)
    ensures Get(RunOps(m, ops, n, lenient).0, k) == Get(m, k)
  {
    if ops != [] {
      var last := |ops| - 1;
      assert ops[last] in ops;
      UntouchedEntriesStay(m, ops[..last], n, lenient, k);
    }
  }

  /** A delete that a lenient server lets pass because the key was gone: from the start, or through another operation of
      the same transaction. */
  ghost predicate LetPass(m: Entries, ops: seq<Op>, lenient: bool, op: Op) {
    && lenient && op.DeleteCas? && op.key.KvKey?
    && (op.key !in m || exists o | o in ops :: o != op && OpTouches(o, op.key))
  }

  /** In a transaction that succeeds, every compare-and-set found its key, before the whole, with the index it
      carries. */
  lemma {:induction false} CasFoundItsIndex(m: Entries, ops: seq<Op>, n: nat, lenient: bool, op: Op)
    requires RunOps(m, ops, n, lenient).1 == [] && op in ops && !op.Set? && op.index < n
    ensures (op.key in m && m[op.key].index == op.index) || LetPass(m, ops, lenient, op)
  {
    var last := |ops| - 1;
    var before := ops[..last];
    assert ops == before + [ops[last]];
    OldEntriesAreUntouched(m, before, n, lenient, op.key);
    if op in before {
      CasFoundItsIndex(m, before, n, lenient, op);
    } else if forall o | o in before :: !OpTouches(o, op.key) {
      UntouchedEntriesStay(m, before, n, lenient, op.key);
    }
  }

  // ---------------------------------------------------------------- committed compare-and-sets

  /** A check written in place of another differs from it in status and output only. */
  predicate OnlyStatusAndOutput(was: Val, v: Val) {
    was.CheckVal? && v.CheckVal? && v.check == was.check.(status := v.check.status, output := v.check.output)
  }

  /** The operation carries the index of something that was read; a check it writes is the one read, edited. */
  ghost predicate FromRead(trace: seq<Event>, op: Op) {
    op.Set? || exists j, e :: Found(trace, j, op.key, e) && e.index == op.index
                              && (op.Cas? ==> OnlyStatusAndOutput(e.val, op.val))
  }

  /** The operation of commit i replaced (or deleted) exactly the version that an earlier read saw: nobody touched the
      key in between. */
  ghost predicate Justified(trace: seq<Event>, i: nat, op: Op)
    requires i < |trace| && trace[i].Commit? && !op.Set?
  {
    && op.key in trace[i].pre
    && trace[i].pre[op.key].index == op.index
    && exists j :: 0 <= j < i && Found(trace, j, op.key, trace[i].pre[op.key]) && Untouched(trace, j, i, op.key)
                   && (op.Cas? ==> OnlyStatusAndOutput(trace[i].pre[op.key].val, op.val))
  }

  /** Every compare-and-set of commit i is justified, but for deletes of KV keys that a lenient server let pass. */
  ghost predicate CommitJustified(trace: seq<Event>, i: nat, lenient: bool)
    requires i < |trace| && trace[i].Commit?
  {
    forall op | op in trace[i].ops && !op.Set? ::
      Justified(trace, i, op) || LetPass(trace[i].pre, trace[i].ops, lenient, op)
  }

  /** No write of another is lost and nothing absent is brought back, in the whole history. */
  ghost predicate NoLostWrites(w: World) {
    forall i | 0 <= i < |w.trace| && w.trace[i].Commit? :: CommitJustified(w.trace, i, w.lenientDelete)
  }

  /** The invariant of a world that is only ever written through operations made from reads. */
  ghost predicate Good(w: World) {
    Sound(w) && NoLostWrites(w)
  }

  lemma JustifiedEarlier(trace: seq<Event>, longer: seq<Event>, i: nat, lenient: bool)
    requires i < |trace| && trace <= longer && trace[i].Commit?
    ensures CommitJustified(longer, i, lenient) <==> CommitJustified(trace, i, lenient)
  {
    forall op | op in trace[i].ops && !op.Set?
      ensures Justified(longer, i, op) <==> Justified(trace, i, op)
    {
      var k := op.key;
      forall j | 0 <= j < i ensures Untouched(longer, j, i, k) <==> Untouched(trace, j, i, k) {
        assert forall m | 0 <= m < i :: longer[m] == trace[m];
      }
      if k in trace[i].pre {
        forall j | 0 <= j < i
          ensures Found(longer, j, k, trace[i].pre[k]) <==> Found(trace, j, k, trace[i].pre[k])
        {
        }
      }
    }
  }

  /** Steps that add no commit keep the history free of lost writes. */
  lemma QuietStepsLoseNothing(w: World, w': World)
    requires NoLostWrites(w) && w.trace <= w'.trace && w'.lenientDelete == w.lenientDelete
    requires forall i | |w.trace| <= i < |w'.trace| :: !w'.trace[i].Commit?
    ensures NoLostWrites(w')
  {
    forall i | 0 <= i < |w'.trace| && w'.trace[i].Commit?
      ensures CommitJustified(w'.trace, i, w'.lenientDelete)
    {
      JustifiedEarlier(w.trace, w'.trace, i, w.lenientDelete);
    }
  }

  lemma FetchStaysGood(w: World, turn: Turn, s: Scope)
    requires Good(w)
    ensures var (w', r) := FetchStep(w, turn, s);
      && Good(w') && w.trace <= w'.trace && w'.lenientDelete == w.lenientDelete
      && (r.Some? ==> forall k | k in r.value :: Found(w'.trace, |w'.trace| - 1, k, r.value[k]))
  {
    FetchStaysSound(w, turn, s);
    ForeignStepsStaySound(w, turn.writes);
    QuietStepsLoseNothing(w, FetchStep(w, turn, s).0);
  }

  lemma CommitIsJustified(w: World, ops: seq<Op>, at: int)
    requires Sound(w) && forall op | op in ops :: FromRead(w.trace, op)
    requires RunOps(w.entries, ops, w.index + 1, w.lenientDelete).1 == []
    ensures CommitJustified(w.trace + [Commit(ops, w.entries, at)], |w.trace|, w.lenientDelete)
  {
    var n := |w.trace|;
    var trace := w.trace + [Commit(ops, w.entries, at)];
    forall op | op in ops && !op.Set?
      ensures Justified(trace, n, op) || LetPass(w.entries, ops, w.lenientDelete, op)
    {
      var j, e :| Found(w.trace, j, op.key, e) && e.index == op.index
                  && (op.Cas? ==> OnlyStatusAndOutput(e.val, op.val));
      CasFoundItsIndex(w.entries, ops, w.index + 1, w.lenientDelete, op);
      if op.key in w.entries && w.entries[op.key].index == op.index {
        assert Found(trace, j, op.key, e) && Untouched(trace, j, n, op.key);
      }
    }
  }

  lemma CommitStaysSound(w: World, ops: seq<Op>, at: int)
    requires Sound(w)
    requires RunOps(w.entries, ops, w.index + 1, w.lenientDelete).1 == []
    ensures var m := RunOps(w.entries, ops, w.index + 1, w.lenientDelete).0;
      Sound(w.(entries := m, index := w.index + 1, trace := w.trace + [Commit(ops, w.entries, at)]))
  {
    var n := w.index + 1;
    var m := RunOps(w.entries, ops, n, w.lenientDelete).0;
    var w' := w.(entries := m, index := n, trace := w.trace + [Commit(ops, w.entries, at)]);
    forall k | k in m ensures m[k].index <= n {
      OldEntriesAreUntouched(w.entries, ops, n, w.lenientDelete, k);
    }
    forall j, k, e | Found(w'.trace, j, k, e)
      ensures e.index <= n
      ensures k in m && m[k].index == e.index ==> m[k] == e && Untouched(w'.trace, j, |w'.trace|, k)
    {
      assert Found(w.trace, j, k, e);
      OldEntriesAreUntouched(w.entries, ops, n, w.lenientDelete, k);
    }
  }

  /** A transaction of operations made from reads, whatever becomes of it, keeps the world good. */
  lemma TxnStaysGood(w: World, turn: Turn, ops: seq<Op>, at: int)
    requires Good(w) && forall op | op in ops :: FromRead(w.trace, op)
    ensures var w' := TxnStep(w, turn, ops, at).0;
      Good(w') && w.trace <= w'.trace && w'.lenientDelete == w.lenientDelete
  {
    ForeignStepsStaySound(w, turn.writes);
    var w1 := ForeignSteps(w, turn.writes);
    QuietStepsLoseNothing(w, w1);
    forall op | op in ops ensures FromRead(w1.trace, op) {
      FromReadLasts(w.trace, w1.trace, op);
    }
    var w' := TxnStep(w, turn, ops, at).0;
    if w' != w1 {
      CommitStaysSound(w1, ops, at);
      CommitIsJustified(w1, ops, at);
      forall i | 0 <= i < |w1.trace| && w'.trace[i].Commit?
        ensures CommitJustified(w'.trace, i, w.lenientDelete)
      {
        JustifiedEarlier(w1.trace, w'.trace, i, w.lenientDelete);
      }
    }
  }

  lemma FromReadLasts(trace: seq<Event>, longer: seq<Event>, op: Op)
    requires trace <= longer && FromRead(trace, op)
    ensures FromRead(longer, op)
  {
    if !op.Set? {
      var j, e :| Found(trace, j, op.key, e) && e.index == op.index
                  && (op.Cas? ==> OnlyStatusAndOutput(e.val, op.val));
      assert Found(longer, j, op.key, e);
    }
  }

  lemma OneOp(m: Entries, a: Op, n: nat, lenient: bool)
    ensures var (m', errors) := RunOps(m, [a], n, lenient);
      && (errors == [] <==> ApplyOp(m, a, n, lenient).Some?)
      && m' == match ApplyOp(m, a, n, lenient) case Some(x) => x case None => m
  {
    assert [a][..0] == [];
  }

  lemma TwoOps(m: Entries, a: Op, b: Op, n: nat, lenient: bool)
    ensures var (m', errors) := RunOps(m, [a, b], n, lenient);
      && (errors == [] <==>
            ApplyOp(m, a, n, lenient).Some? && ApplyOp(ApplyOp(m, a, n, lenient).value, b, n, lenient).Some?)
      && (errors == [] ==> Some(m') == ApplyOp(ApplyOp(m, a, n, lenient).value, b, n, lenient))
  {
    assert [a, b][..1] == [a];
    OneOp(m, a, n, lenient);
  }

  // ---------------------------------------------------------------- a writer that only edits checks

  /** Event i is no commit, or one of compare-and-sets of checks, each justified. */
  ghost predicate IsEdit(trace: seq<Event>, i: nat)
    requires i < |trace|
  {
    trace[i].Commit? ==> forall op | op in trace[i].ops :: op.Cas? && op.key.CheckKey? && Justified(trace, i, op)
  }

  /** All that was committed from w to w' are edits of checks. Each replaced the very version that an earlier read
      saw, with nobody touching it in between, by one that differs in status and output only: no write of another is
      lost, nothing absent is brought back, and nothing is deleted. */
  ghost predicate OnlyEdits(w: World, w': World) {
    w.trace <= w'.trace && forall i | |w.trace| <= i < |w'.trace| :: IsEdit(w'.trace, i)
  }

  lemma JustifiedLasts(trace: seq<Event>, longer: seq<Event>, i: nat, op: Op)
    requires i < |trace| && trace <= longer && trace[i].Commit? && !op.Set? && Justified(trace, i, op)
    ensures Justified(longer, i, op)
  {
    var j :| 0 <= j < i && Found(trace, j, op.key, trace[i].pre[op.key]) && Untouched(trace, j, i, op.key)
             && (op.Cas? ==> OnlyStatusAndOutput(trace[i].pre[op.key].val, op.val));
    assert Found(longer, j, op.key, longer[i].pre[op.key]);
    assert forall m | 0 <= m < i :: longer[m] == trace[m];
    assert Untouched(longer, j, i, op.key);
  }

  lemma EditsCompose(w: World, w1: World, w2: World)
    requires OnlyEdits(w, w1) && OnlyEdits(w1, w2)
    ensures OnlyEdits(w, w2)
  {
    forall i | |w.trace| <= i < |w1.trace| ensures IsEdit(w2.trace, i) {
      assert IsEdit(w1.trace, i) && w2.trace[i] == w1.trace[i];
      if w1.trace[i].Commit? {
        forall op | op in w1.trace[i].ops ensures op.Cas? && op.key.CheckKey? && Justified(w2.trace, i, op) {
          JustifiedLasts(w1.trace, w2.trace, i, op);
        }
      }
    }
  }

  lemma AskEdits(s: Server, scope: Scope)
    requires Good(s.world)
    ensures OnlyEdits(s.world, Ask(s, scope).0.world) && Good(Ask(s, scope).0.world)
  {
    OthersCommitNothing(s.world, NextTurn(s.script).writes);
    FetchStaysGood(s.world, NextTurn(s.script), scope);
  }

  /** A transaction of compare-and-sets of checks made from reads, whatever becomes of it, only edits. */
  lemma SubmitEdits(s: Server, ops: seq<Op>, at: int)
    requires Good(s.world)
    requires forall op | op in ops :: op.Cas? && op.key.CheckKey? && FromRead(s.world.trace, op)
    ensures OnlyEdits(s.world, Submit(s, ops, at).0.world) && Good(Submit(s, ops, at).0.world)
  {
    TxnStaysGood(s.world, NextTurn(s.script), ops, at);
    OthersCommitNothing(s.world, NextTurn(s.script).writes);
    var w1, w' := ForeignSteps(s.world, NextTurn(s.script).writes), Submit(s, ops, at).0.world;
    forall i | |s.world.trace| <= i < |w'.trace| ensures IsEdit(w'.trace, i) {
      if w'.trace[i].Commit? {
        assert i == |w1.trace| && w'.trace[i].ops == ops && CommitJustified(w'.trace, i, w'.lenientDelete);
      }
    }
  }

  // ---------------------------------------------------------------- when nobody interferes

  /** Compare-and-sets of different keys that all carry the current indices succeed together, and write just those
      keys. */
  lemma {:induction false} CurrentCasesSucceed(m: Entries, ops: seq<Op>, n: nat, lenient: bool)
    requires forall i, j | 0 <= i < j < |ops| :: ops[i].key != ops[j].key
    requires forall op | op in ops :: op.Cas? && op.key in m && m[op.key].index == op.index
    ensures var (m', errors) := RunOps(m, ops, n, lenient);
      && errors == [] && m'.Keys == m.Keys
      && (forall op | op in ops :: m'[op.key] == Entry(op.val, n))
      && (forall k | k in m && forall op | op in ops :: op.key != k :: m'[k] == m[k])
  {
    if ops != [] {
      var front, last := ops[..|ops| - 1], ops[|ops| - 1];
      assert ops == front + [last];
      CurrentCasesSucceed(m, front, n, lenient);
      assert forall op | op in front :: op.key != last.key;
      assert last in ops;
    }
  }

  // ---------------------------------------------------------------- the server

  function NextTurn(script: seq<Turn>): Turn {
    if script == [] then Turn([], Answer) else script[0]
  }

  function LaterTurns(script: seq<Turn>): seq<Turn> {
    if script == [] then [] else script[1..]
  }

  /** The server's world together with all that the outside will do. */
  datatype Server = Server(world: World, script: seq<Turn>)

  function Ask(s: Server, scope: Scope): (Server, Option<Entries>) {
    var (w, found) := FetchStep(s.world, NextTurn(s.script), scope);
    (Server(w, LaterTurns(s.script)), found)
  }

  function Submit(s: Server, ops: seq<Op>, at: int): (Server, Reply) {
    var (w, reply) := TxnStep(s.world, NextTurn(s.script), ops, at);
    (Server(w, LaterTurns(s.script)), reply)
  }

  /** Whether the next request, if it is this transaction, is applied, be it acknowledged or not. */
  function TxnCommits(s: Server, ops: seq<Op>): bool {
    var turn := NextTurn(s.script);
    var w := ForeignSteps(s.world, turn.writes);
    (turn.fate == Answer || turn.fate == LoseReply) && RunOps(w.entries, ops, w.index + 1, w.lenientDelete).1 == []
  }

  /** A transaction that came after w has written (or deleted) k. */
  ghost predicate WrittenSince(w: World, w': World, k: Key) {
    exists m :: |w.trace| <= m < |w'.trace| && w'.trace[m].Commit? && Touches(w'.trace[m], k)
  }

  lemma WrittenInParts(w: World, w1: World, w2: World, k: Key)
    requires w.trace <= w1.trace <= w2.trace
    ensures WrittenSince(w, w2, k) <==> WrittenSince(w, w1, k) || WrittenSince(w1, w2, k)
  {
    if m :| |w.trace| <= m < |w1.trace| && w1.trace[m].Commit? && Touches(w1.trace[m], k) {
      assert w2.trace[m] == w1.trace[m];
    }
    if m :| |w.trace| <= m < |w2.trace| && w2.trace[m].Commit? && Touches(w2.trace[m], k) {
      assert m < |w1.trace| ==> w1.trace[m] == w2.trace[m];
    }
  }

  lemma {:induction false} OthersCommitNothing(w: World, writes: seq<Write>)
    ensures var w' := ForeignSteps(w, writes);
      w.trace <= w'.trace && forall m | |w.trace| <= m < |w'.trace| :: w'.trace[m].Foreign?
  {
    if writes != [] {
      OthersCommitNothing(w, writes[..|writes| - 1]);
    }
  }

  lemma AskWritesNothing(s: Server, scope: Scope, k: Key)
    ensures var w' := Ask(s, scope).0.world; s.world.trace <= w'.trace && !WrittenSince(s.world, w', k)
  {
    OthersCommitNothing(s.world, NextTurn(s.script).writes);
  }

  lemma SubmitWrites(s: Server, ops: seq<Op>, at: int, k: Key)
    ensures var w' := Submit(s, ops, at).0.world;
      && s.world.trace <= w'.trace
      && (WrittenSince(s.world, w', k) <==> TxnCommits(s, ops) && exists op | op in ops :: OpTouches(op, k))
  {
    OthersCommitNothing(s.world, NextTurn(s.script).writes);
    var w1, w' := ForeignSteps(s.world, NextTurn(s.script).writes), Submit(s, ops, at).0.world;
    if TxnCommits(s, ops) {
      assert w'.trace == w1.trace + [Commit(ops, w1.entries, at)];
      assert w'.trace[|w1.trace|] == Commit(ops, w1.entries, at);
    } else {
      assert w' == w1;
    }
  }

  lemma QuietAsk(s: Server, scope: Scope)
    requires s.script == []
    ensures var (s', found) := Ask(s, scope);
      && s'.script == [] && s'.world.entries == s.world.entries && found == Some(Visible(s.world.entries, scope))
  {
    assert ForeignSteps(s.world, []) == s.world;
  }

  lemma QuietCommit(s: Server, ops: seq<Op>, at: int)
    requires s.script == []
    requires RunOps(s.world.entries, ops, s.world.index + 1, s.world.lenientDelete).1 == []
    ensures var (s', reply) := Submit(s, ops, at);
      && s'.script == [] && reply == Reply(true, [])
      && s'.world.entries == RunOps(s.world.entries, ops, s.world.index + 1, s.world.lenientDelete).0
  {
    assert ForeignSteps(s.world, []) == s.world;
  }

  /** The Consul server. The script is all that the outside will do, one turn before each request; when it is used up
      nobody interferes any more. */
  class Consul {
    var world: World
    var script: seq<Turn>

    constructor (world: World, script: seq<Turn>)
      ensures this.world == world && this.script == script
    {
      this.world, this.script := world, script;
    }

    /** A read; None is an error. */
    method Fetch(scope: Scope) returns (found: Option<Entries>)
      requires Good(world)
      modifies this
      ensures (world, found) == FetchStep(old(world), NextTurn(old(script)), scope)
      ensures script == LaterTurns(old(script))
      ensures Good(world) && old(world).trace <= world.trace && world.lenientDelete == old(world).lenientDelete
      ensures found.Some? ==>
        forall k | k in found.value :: InScope(scope, k) && Found(world.trace, |world.trace| - 1, k, found.value[k])
    {
      FetchStaysGood(world, NextTurn(script), scope);
      var (w, r) := FetchStep(world, NextTurn(script), scope);
      world, script, found := w, LaterTurns(script), r;
    }

    /** A transaction, decided on at time `at`. Every compare-and-set in it must come from something read. */
    method Txn(ops: seq<Op>, at: int) returns (reply: Reply)
      requires Good(world) && forall op | op in ops :: FromRead(world.trace, op)
      modifies this
      ensures (world, reply) == TxnStep(old(world), NextTurn(old(script)), ops, at)
      ensures script == LaterTurns(old(script))
      ensures Good(world) && old(world).trace <= world.trace && world.lenientDelete == old(world).lenientDelete
    {
      TxnStaysGood(world, NextTurn(script), ops, at);
      var (w, r) := TxnStep(world, NextTurn(script), ops, at);
      world, script, reply := w, LaterTurns(script), r;
    }
  }
}
