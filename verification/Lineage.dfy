/** Agent records and the ParentID graph they form. Nothing here assumes that the
    graph is a forest: a stored record may point at itself, at a descendant, or at
    an id that was never registered. */
module Lineage {

  /** `Other` carries every status the registry stores without interpreting it. */
  datatype Status = Pending | Active | AwaitingConsent | Revoked | Completed | Failed | Other(name: string)

  datatype Placement = Kubernetes | Remote | Substrate

  datatype Agent = Agent(
    id: string, agentType: string, tenant: string, user: string, status: Status,
    dismissed: bool, parent: string, org: string, placement: Placement)

  type Fleet = map<string, Agent>

  /** Records are stored under their own id, and the empty id names no agent. */
  ghost predicate WellKeyed(f: Fleet) {
    forall k :: k in f ==> f[k].id == k && k != ""
  }

  /** Following ParentID exactly `n` times leads from `x` to `y`, each hop starting
      at a stored record. */
  ghost predicate Climbs(f: Fleet, x: string, y: string, n: nat)
    decreases n
  {
    if n == 0 then x == y else x in f && Climbs(f, f[x].parent, y, n - 1)
  }

  /** Climbing from `x` meets `y`. */
  ghost predicate Leads(f: Fleet, x: string, y: string) {
    exists n: nat :: Climbs(f, x, y, n)
  }

  /** `x` is a stored record equal to `root` or spawned by it, transitively. */
  ghost predicate Under(f: Fleet, x: string, root: string) {
    x in f && Leads(f, x, root)
  }

  /** The shortest climb from `x` to `root` has `n` hops. */
  ghost predicate AtDistance(f: Fleet, x: string, root: string, n: nat) {
    Climbs(f, x, root, n) && forall m: nat :: m < n ==> !Climbs(f, x, root, m)
  }

  /** The chain upward from `x` leaves the store after exactly `n` records. */
  ghost predicate Grounded(f: Fleet, x: string, n: nat)
    decreases n
  {
    if n == 0 then x !in f else x in f && Grounded(f, f[x].parent, n - 1)
  }

  ghost predicate Acyclic(f: Fleet) {
    forall x :: x in f ==> exists n: nat :: Grounded(f, x, n)
  }

  /** `x` together with every stored record above it. */
  ghost function Ancestors(f: Fleet, x: string): set<string> {
    set y | y in f && Leads(f, x, y)
  }

  /** Same ids and same ParentID edges; anything else may differ. */
  ghost predicate SameEdges(f: Fleet, g: Fleet) {
    f.Keys == g.Keys && forall k :: k in f ==> f[k].parent == g[k].parent
  }

  lemma {:induction false} ClimbsCompose(f: Fleet, x: string, y: string, z: string, m: nat, n: nat)
    requires Climbs(f, x, y, m) && Climbs(f, y, z, n)
    ensures Climbs(f, x, z, m + n)
    decreases m
  {
    if m > 0 { ClimbsCompose(f, f[x].parent, y, z, m - 1, n); }
  }

  /** A longer climb passes through the endpoint of a shorter one. */
  lemma {:induction false} ClimbsSplit(f: Fleet, x: string, y: string, z: string, m: nat, n: nat)
    requires Climbs(f, x, y, m) && Climbs(f, x, z, n) && m <= n
    ensures Climbs(f, y, z, n - m)
    decreases m
  {
    if m > 0 { ClimbsSplit(f, f[x].parent, y, z, m - 1, n - 1); }
  }

  lemma UnderTransitive(f: Fleet, x: string, y: string, z: string)
    requires Under(f, x, y) && Under(f, y, z)
    ensures Under(f, x, z)
  {
    var m: nat :| Climbs(f, x, y, m);
    var n: nat :| Climbs(f, y, z, n);
    ClimbsCompose(f, x, y, z, m, n);
  }

  lemma ChildIsUnder(f: Fleet, x: string)
    requires x in f && f[x].parent in f
    ensures Under(f, x, f[x].parent)
  {
    assert Climbs(f, f[x].parent, f[x].parent, 0);
    assert Climbs(f, x, f[x].parent, 1);
  }

  lemma {:induction false} SameEdgesClimb(f: Fleet, g: Fleet, x: string, y: string, n: nat)
    requires SameEdges(f, g)
    ensures Climbs(f, x, y, n) <==> Climbs(g, x, y, n)
    decreases n
  {
    if n > 0 && x in f { SameEdgesClimb(f, g, f[x].parent, y, n - 1); }
  }

  lemma SameEdgesUnder(f: Fleet, g: Fleet)
    requires SameEdges(f, g)
    ensures forall x, r :: Under(f, x, r) <==> Under(g, x, r)
  {
    forall x, r ensures Under(f, x, r) <==> Under(g, x, r) {
      forall n: nat ensures Climbs(f, x, r, n) <==> Climbs(g, x, r, n) {
        SameEdgesClimb(f, g, x, r, n);
      }
    }
  }

  /** A grounded chain revisits nothing: no record is its own proper ancestor. */
  lemma {:induction false} GroundedHasNoLoop(f: Fleet, x: string, n: nat, k: nat)
    requires Grounded(f, x, n) && x in f && k > 0
    ensures !Climbs(f, x, x, k)
    decreases n
  {
    if Climbs(f, x, x, k) {
      var p := f[x].parent;
      assert Climbs(f, p, x, k - 1);
      if p in f {
        assert Climbs(f, x, p, 1) by { assert Climbs(f, p, p, 0); }
        ClimbsCompose(f, p, x, p, k - 1, 1);
        GroundedHasNoLoop(f, p, n - 1, k);
      }
    }
  }

  /** On a grounded chain the ancestor count is the chain length, so counting
      ancestors and counting hops agree exactly where hops can be counted. */
  lemma {:induction false} GroundedCountsAncestors(f: Fleet, x: string, n: nat)
    requires Grounded(f, x, n)
    ensures |Ancestors(f, x)| == n
    decreases n
  {
    if n == 0 {
      forall y, k: nat | Climbs(f, x, y, k) ensures y !in f {}
      assert Ancestors(f, x) == {};
    } else {
      var p := f[x].parent;
      GroundedCountsAncestors(f, p, n - 1);
      forall y | y in f ensures y in Ancestors(f, x) <==> y == x || y in Ancestors(f, p) {
        assert Climbs(f, x, x, 0);
        forall k: nat | Climbs(f, p, y, k) ensures Climbs(f, x, y, k + 1) {}
        forall k: nat | Climbs(f, x, y, k) && y != x ensures k > 0 && Climbs(f, p, y, k - 1) {}
      }
      forall k: nat ensures !Climbs(f, p, x, k) {
        if Climbs(f, p, x, k) { GroundedHasNoLoop(f, x, n, k + 1); }
      }
      assert Ancestors(f, x) == {x} + Ancestors(f, p);
    }
  }

  lemma {:induction false} DistanceBelow(f: Fleet, c: string, root: string, n: nat)
    requires c in f && c != root && AtDistance(f, f[c].parent, root, n)
    ensures AtDistance(f, c, root, n + 1)
  {
    forall m: nat | m < n + 1 ensures !Climbs(f, c, root, m) {
      if m > 0 { assert !Climbs(f, f[c].parent, root, m - 1); }
    }
  }

  lemma DistanceUnique(f: Fleet, x: string, root: string, m: nat, n: nat)
    requires AtDistance(f, x, root, m) && AtDistance(f, x, root, n)
    ensures m == n
  {
  }

  /** A set that holds the root and the children of its members holds the subtree. */
  lemma {:induction false} ClosedUnderChildren(f: Fleet, s: set<string>, root: string, x: string, n: nat)
    requires root in s
    requires forall c :: c in f && f[c].parent in s ==> c in s
    requires Climbs(f, x, root, n)
    ensures x in s
    decreases n
  {
    if n > 0 { ClosedUnderChildren(f, s, root, f[x].parent, n - 1); }
  }
}
