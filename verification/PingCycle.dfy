/** coordinate.go: the order and pace in which an instance pings its nodes. */
module PingCycle {
  // ---------------------------------------------------------------- shuffleNodes

  /** shuffleNodes: swap downwards with randomly drawn earlier positions. */
  method ShuffleNodes(nodes: array<string>, draws: nat -> nat)
    modifies nodes
    ensures multiset(nodes[..]) == multiset(old(nodes[..]))
  {
    var i := nodes.Length - 1;
    while i >= 0
      invariant -1 <= i < nodes.Length
      invariant multiset(nodes[..]) == multiset(old(nodes[..]))
    {
      var j := draws(i) % (i + 1);
      nodes[i], nodes[j] := nodes[j], nodes[i];
      i := i - 1;
    }
  }

  // ---------------------------------------------------------------- nodeTicker

  /** The wait between two pings, in nanoseconds. */
  function TickWait(interval: nat, numNodes: nat): nat {
    if numNodes > 0 then interval / numNodes else interval
  }

  /** One wait per node adds up to the update interval, short of it by less than a nanosecond a node. */
  lemma TicksFillInterval(interval: nat, n: nat)
    requires n > 0
    ensures n * TickWait(interval, n) <= interval < n * TickWait(interval, n) + n
  {
    var w := interval / n;
    assert interval == w * n + interval % n;
    assert w * n == n * w;
  }

  // ---------------------------------------------------------------- updateCoords

  /** The index after one tick. */
  function Advance(index: nat, n: nat): nat {
    if index + 1 >= n then 0 else index + 1
  }

  /** The nodes selected by k ticks that start from `index`. */
  function Picks(nodes: seq<string>, index: nat, k: nat): seq<string>
    requires nodes != []
    decreases k
  {
    if k == 0 then []
    else
      var next := Advance(index, |nodes|);
      [nodes[next]] + Picks(nodes, next, k - 1)
  }

  /** The index after k ticks. */
  function Cursor(index: nat, n: nat, k: nat): nat
    decreases k
  {
    if k == 0 then index else Cursor(Advance(index, n), n, k - 1)
  }

  lemma {:induction false} PicksConcat(nodes: seq<string>, index: nat, a: nat, b: nat)
    requires nodes != []
    ensures Picks(nodes, index, a + b)
            == Picks(nodes, index, a) + Picks(nodes, Cursor(index, |nodes|, a), b)
    ensures |Picks(nodes, index, a)| == a
    decreases a
  {
    if a > 0 {
      PicksConcat(nodes, Advance(index, |nodes|), a - 1, b);
    } else {
      assert Picks(nodes, index, 0) == [];
    }
  }

  lemma {:induction false} CursorInBounds(index: nat, n: nat, k: nat)
    requires index < n
    ensures Cursor(index, n, k) < n
    decreases k
  {
    if k > 0 {
      CursorInBounds(Advance(index, n), n, k - 1);
    }
  }

  /** Up to the wrap the ticks walk the list in order. */
  lemma {:induction false} PicksBeforeWrap(nodes: seq<string>, index: nat, k: nat)
    requires index + k < |nodes|
    ensures Picks(nodes, index, k) == nodes[index + 1..index + 1 + k]
    ensures Cursor(index, |nodes|, k) == index + k
    decreases k
  {
    if k > 0 {
      PicksBeforeWrap(nodes, index + 1, k - 1);
    }
  }

  /** A full turn is a rotation of the list, and ends where it began. */
  lemma FullTurn(nodes: seq<string>, index: nat)
    requires index < |nodes|
    ensures Picks(nodes, index, |nodes|) == nodes[index + 1..] + nodes[..index + 1]
    ensures multiset(Picks(nodes, index, |nodes|)) == multiset(nodes)
  {
    var rest := |nodes| - 1 - index;
    PicksBeforeWrap(nodes, index, rest);
    PicksFromEnd(nodes, index + 1);
    PicksConcat(nodes, index, rest, index + 1);
    RotationKeepsNodes(nodes, index + 1);
  }

  /** From the last position the ticks wrap to the front. */
  lemma PicksFromEnd(nodes: seq<string>, k: nat)
    requires 0 < k <= |nodes|
    ensures Picks(nodes, |nodes| - 1, k) == nodes[..k]
  {
    PicksBeforeWrap(nodes, 0, k - 1);
    assert nodes[..k] == [nodes[0]] + nodes[1..k];
  }

  lemma RotationKeepsNodes(nodes: seq<string>, k: nat)
    requires k <= |nodes|
    ensures multiset(nodes[k..] + nodes[..k]) == multiset(nodes)
  {
    assert nodes == nodes[..k] + nodes[k..];
  }

  /** Fairness: any n consecutive ticks over n nodes select every node exactly once. */
  lemma AnyWindowIsFair(nodes: seq<string>, index: nat, before: nat, after: nat)
    requires index < |nodes|
    ensures var n := |nodes|; var all := Picks(nodes, index, before + n + after);
      && |all| == before + n + after
      && multiset(all[before..before + n]) == multiset(nodes)
  {
    var n := |nodes|;
    var c := Cursor(index, n, before);
    CursorInBounds(index, n, before);
    PicksConcat(nodes, index, before, n + after);
    PicksConcat(nodes, c, n, after);
    PicksConcat(nodes, Cursor(c, n, n), after, 0);
    FullTurn(nodes, c);
    Middle(Picks(nodes, index, before), Picks(nodes, c, n), Picks(nodes, Cursor(c, n, n), after));
    assert before + n + after == before + (n + after);
  }

  lemma Middle(a: seq<string>, b: seq<string>, c: seq<string>)
    ensures |a + (b + c)| == |a| + |b| + |c| && (a + (b + c))[|a|..|a| + |b|] == b
  {
  }

  lemma {:induction false} PicksSnoc(nodes: seq<string>, index: nat, k: nat)
    requires index < |nodes|
    ensures var c := Cursor(index, |nodes|, k); var next := Advance(c, |nodes|);
      && c < |nodes| && Cursor(index, |nodes|, k + 1) == next < |nodes|
      && Picks(nodes, index, k + 1) == Picks(nodes, index, k) + [nodes[next]]
    decreases k
  {
    if k > 0 {
      PicksSnoc(nodes, Advance(index, |nodes|), k - 1);
    } else {
      assert Picks(nodes, index, 1) == [nodes[Advance(index, |nodes|)]] + Picks(nodes, Advance(index, |nodes|), 0);
    }
  }

  lemma LastWindow(nodes: seq<string>, index: nat, k: nat)
    requires index < |nodes| <= k
    ensures var all := Picks(nodes, index, k);
      |all| == k && multiset(all[k - |nodes|..]) == multiset(nodes)
  {
    AnyWindowIsFair(nodes, index, k - |nodes|, 0);
    var all := Picks(nodes, index, k);
    assert all[k - |nodes|..] == all[k - |nodes|..k];
  }

  /** updateCoords: the shuffled list, the position in it and the ticker. */
  class CoordUpdater {
    const interval: nat
    var nodes: array<string>
    var index: nat
    var wait: nat
    ghost var picked: seq<string>  // selected since the last list arrived

    ghost predicate Valid()
      reads this, nodes
    {
      && wait == TickWait(interval, nodes.Length)
      && (nodes.Length == 0 ==> index == 0 && picked == [])
      && (nodes.Length > 0 ==>
            && index == Cursor(0, nodes.Length, |picked|) < nodes.Length
            && picked == Picks(nodes[..], 0, |picked|))
    }

    constructor (interval: nat, nodes: array<string>, draws: nat -> nat)
      modifies nodes
      ensures Valid() && this.nodes == nodes && picked == []
      ensures multiset(nodes[..]) == multiset(old(nodes[..]))
    {
      this.interval := interval;
      this.nodes := nodes;
      index, wait, picked := 0, TickWait(interval, nodes.Length), [];
      new;
      ShuffleNodes(nodes, draws);
    }

    /** A new list: shuffle it, restart the cycle, and reset the ticker when the length changed. */
    method NewNodes(newNodes: array<string>, draws: nat -> nat)
      requires Valid()
      modifies this, newNodes
      ensures Valid() && nodes == newNodes && picked == []
      ensures multiset(nodes[..]) == multiset(old(newNodes[..]))
    {
      if newNodes.Length != nodes.Length {
        wait := TickWait(interval, newNodes.Length);
      }
      nodes := newNodes;
      ShuffleNodes(nodes, draws);
      index, picked := 0, [];
    }

    /** A tick: advance cyclically and select the node there, if there is any. */
    method Tick() returns (some: bool, node: string)
      requires Valid()
      modifies this
      ensures Valid() && nodes == old(nodes)
      ensures some <==> nodes.Length > 0
      ensures some ==> picked == old(picked) + [node]
      ensures !some ==> picked == old(picked)
      ensures some && |picked| >= nodes.Length ==>
        multiset(picked[|picked| - nodes.Length..]) == multiset(nodes[..])
    {
      ghost var k, list := |picked|, nodes[..];
      index := index + 1;
      if index >= nodes.Length {
        index := 0;
      }
      if nodes.Length == 0 {
        return false, "";
      }
      some, node := true, nodes[index];
      PicksSnoc(list, 0, k);
      picked := picked + [node];
      if k + 1 >= nodes.Length {
        LastWindow(list, 0, k + 1);
      }
    }
  }
}
