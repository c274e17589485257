/** The string keys under which checks are tracked, batched and looked up (check.go, batcher.go). */
module Keys {
  function HashCheck(node: string, serviceID: string, checkID: string): string {
    if serviceID != "" then node + "/" + serviceID + "/" + checkID else node + "/" + checkID
  }

  function MakeCheckKey(node: string, checkID: string): string {
    node + "/" + checkID
  }

  /** Go's strings.TrimPrefix. */
  function TrimPrefix(s: string, prefix: string): string {
    if prefix <= s then s[|prefix|..] else s
  }

  /** The id under which the catalog is asked for a check of `node`. */
  function LookupID(node: string, checkID: string): string {
    TrimPrefix(checkID, node + "/")
  }

  predicate NoSlash(s: string) {
    '/' !in s
  }

  /** The first slash of `a/x` is the one after a slash-free `a`. */
  lemma FirstSlash(a: string, x: string)
    requires NoSlash(a)
    ensures var s := a + "/" + x; s[|a|] == '/' && forall i | 0 <= i < |a| :: s[i] != '/'
  {
    var s := a + "/" + x;
    forall i | 0 <= i < |a| ensures s[i] != '/' {
      assert s[i] == a[i];
    }
  }

  /** A first component without a slash is recoverable from the joined string. */
  lemma SplitAtFirstSlash(a: string, x: string, b: string, y: string)
    requires NoSlash(a) && NoSlash(b)
    requires a + "/" + x == b + "/" + y
    ensures a == b && x == y
  {
    FirstSlash(a, x);
    FirstSlash(b, y);
    var s := a + "/" + x;
    assert a == s[..|a|] && x == s[|a| + 1..];
    assert b == s[..|b|] && y == s[|b| + 1..];
  }

  /** With slash-free node names a batch key stands for one (node, check id) pair. */
  lemma MakeCheckKeyInjective(n1: string, c1: string, n2: string, c2: string)
    requires NoSlash(n1) && NoSlash(n2)
    ensures MakeCheckKey(n1, c1) == MakeCheckKey(n2, c2) <==> n1 == n2 && c1 == c2
  {
    if MakeCheckKey(n1, c1) == MakeCheckKey(n2, c2) {
      SplitAtFirstSlash(n1, c1, n2, c2);
    }
  }

  /** What follows the node name in a hash. */
  function HashTail(serviceID: string, checkID: string): string {
    if serviceID != "" then serviceID + "/" + checkID else checkID
  }

  lemma HashSplits(node: string, serviceID: string, checkID: string)
    ensures HashCheck(node, serviceID, checkID) == node + "/" + HashTail(serviceID, checkID)
  {
    if serviceID != "" {
      assert node + "/" + serviceID + "/" + checkID == node + "/" + (serviceID + "/" + checkID);
    }
  }

  /** With slash-free node names a hash names the node its check lives on. */
  lemma HashDeterminesNode(n1: string, s1: string, c1: string, n2: string, s2: string, c2: string)
    requires NoSlash(n1) && NoSlash(n2)
    requires HashCheck(n1, s1, c1) == HashCheck(n2, s2, c2)
    ensures n1 == n2 && HashTail(s1, c1) == HashTail(s2, c2)
  {
    HashSplits(n1, s1, c1);
    HashSplits(n2, s2, c2);
    SplitAtFirstSlash(n1, HashTail(s1, c1), n2, HashTail(s2, c2));
  }

  /** A slash-free check id is what follows the last slash of the tail. */
  lemma LastComponent(s: string, c: string)
    requires NoSlash(c)
    ensures var t := HashTail(s, c);
      && |c| <= |t| && t[|t| - |c|..] == c
      && (|c| < |t| ==> t[|t| - |c| - 1] == '/')
      && forall i | |t| - |c| <= i < |t| :: t[i] != '/'
  {
    var t := HashTail(s, c);
    forall i | |t| - |c| <= i < |t| ensures t[i] != '/' {
      assert t[i] == c[i - (|t| - |c|)];
    }
  }

  /** When node names and check ids hold no slash, the hash identifies the check completely, whatever the service id. */
  lemma HashInjective(n1: string, s1: string, c1: string, n2: string, s2: string, c2: string)
    requires NoSlash(n1) && NoSlash(c1) && NoSlash(n2) && NoSlash(c2)
    requires HashCheck(n1, s1, c1) == HashCheck(n2, s2, c2)
    ensures n1 == n2 && s1 == s2 && c1 == c2
  {
    HashDeterminesNode(n1, s1, c1, n2, s2, c2);
    LastComponent(s1, c1);
    LastComponent(s2, c2);
    var t := HashTail(s1, c1);
    assert s1 != "" ==> t[..|t| - |c1| - 1] == s1;
    assert s2 != "" ==> t[..|t| - |c2| - 1] == s2;
  }

  /** Without that, a node check and a service check can share a hash, and so one slot in the runner. */
  lemma HashCollision()
    ensures HashCheck("n", "s", "c") == HashCheck("n", "", "s/c")
    ensures MakeCheckKey("n", "c") != MakeCheckKey("n", "s/c")
  {
    assert HashCheck("n", "s", "c") == "n/s/c";
    assert HashCheck("n", "", "s/c") == "n/s/c";
    assert |MakeCheckKey("n", "c")| != |MakeCheckKey("n", "s/c")|;
  }

  /** The id does not start with the name of its node and a slash. */
  predicate Unprefixed(node: string, checkID: string) {
    !(node + "/" <= checkID)
  }

  /** The catalog lookup asks for the check's own id exactly when that id does not start with "node/". */
  lemma LookupIsIdentity(node: string, checkID: string)
    ensures LookupID(node, checkID) == checkID <==> Unprefixed(node, checkID)
  {
  }

  /** Otherwise it asks for what follows that. */
  lemma LookupDropsPrefix(node: string, rest: string)
    ensures LookupID(node, node + "/" + rest) == rest
  {
    assert (node + "/" + rest)[|node| + 1..] == rest;
  }
}
