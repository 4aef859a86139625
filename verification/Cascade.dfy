/** What a root-skipping cascade reaches, why skipping roots with an in-scope parent loses nobody, and
    exactly when it would. */
module Cascade {
  import opened Lineage
  import opened Revocation

  /** A root whose cascade is actually started: its parent is not in scope too. */
  predicate Started(a: Agent, scopeSet: set<string>) {
    !(a.parent != "" && a.parent in scopeSet)
  }

  /** Everything the cascade over `roots` reaches. */
  ghost function Covered(f: Fleet, roots: seq<Agent>, scopeSet: set<string>): set<string> {
    set x | x in f && exists r :: r in roots && Started(r, scopeSet) && Under(f, x, r.id)
  }

  ghost function Selected(f: Fleet, p: Agent -> bool): set<string> {
    set k | k in f && !f[k].dismissed && p(f[k])
  }

  /** `roots` lists exactly the non-dismissed agents satisfying `p`. */
  ghost predicate Lists(f: Fleet, p: Agent -> bool, roots: seq<Agent>) {
    forall a :: a in roots <==> a.id in f && f[a.id] == a && !a.dismissed && p(a)
  }

  /** The set revoked by a root-skipping cascade, without reference to any list order. */
  ghost function CascadeSet(f: Fleet, scope: Agent -> bool, root: Agent -> bool): set<string> {
    set x | x in f && exists r :: r in Selected(f, root) && Started(f[r], Selected(f, scope)) && Under(f, x, r)
  }

  lemma CoveredIsCascadeSet(f: Fleet, scope: Agent -> bool, root: Agent -> bool, roots: seq<Agent>)
    requires WellKeyed(f) && Lists(f, root, roots)
    ensures Covered(f, roots, Selected(f, scope)) == CascadeSet(f, scope, root)
  {
    var sc := Selected(f, scope);
    forall x | x in f
      ensures x in Covered(f, roots, sc) <==> x in CascadeSet(f, scope, root)
    {
      forall a | a in roots && Started(a, sc) && Under(f, x, a.id)
        ensures x in CascadeSet(f, scope, root)
      {
        assert a.id in Selected(f, root) && f[a.id] == a;
      }
      forall r | r in Selected(f, root) && Started(f[r], sc) && Under(f, x, r)
        ensures x in Covered(f, roots, sc)
      {
        assert f[r].id == r && f[r] in roots;
      }
    }
  }

  function InOrg(org: string): Agent -> bool {
    (a: Agent) => a.org == org
  }

  function OwnedBy(user: string): Agent -> bool {
    (a: Agent) => a.user == user
  }

  function OrglessOwnedBy(user: string): Agent -> bool {
    (a: Agent) => a.user == user && a.org == ""
  }

  function MemberAgent(org: string, user: string): Agent -> bool {
    (a: Agent) => a.org == org && a.user == user
  }

  ghost function Descendants(f: Fleet, root: string): set<string> {
    set x | x in f && Under(f, x, root)
  }

  lemma CoveredGrows(f: Fleet, roots: seq<Agent>, scopeSet: set<string>, i: nat)
    requires i < |roots|
    ensures Covered(f, roots[..i], scopeSet) <= Covered(f, roots[..i + 1], scopeSet) <= Covered(f, roots, scopeSet)
    ensures Covered(f, roots[..i + 1], scopeSet) == Covered(f, roots[..i], scopeSet) +
            if Started(roots[i], scopeSet) then Descendants(f, roots[i].id) else {}
  {
    assert roots[..i + 1] == roots[..i] + [roots[i]];
    assert roots[i] in roots[..i + 1];
    assert forall r :: r in roots[..i + 1] ==> r in roots;
  }

  lemma SelfUnder(f: Fleet, id: string)
    requires id in f
    ensures Under(f, id, id)
  {
    assert Climbs(f, id, id, 0);
  }

  /** Selected agents are in scope, and a listed in-scope parent of one is selected too. */
  ghost predicate ClosedUpward(f: Fleet, scope: Agent -> bool, root: Agent -> bool) {
    forall k :: k in Selected(f, root) ==>
      k in Selected(f, scope) && (f[k].parent in Selected(f, scope) ==> f[k].parent in Selected(f, root))
  }

  /** Org inheritance, as the spawn path establishes it. */
  ghost predicate OrgInherited(f: Fleet) {
    forall k :: k in f && f[k].parent in f ==> f[f[k].parent].org == f[k].org
  }

  /** Each selected agent is below a root the cascade starts at. */
  lemma {:induction false} SelectedIsCovered(f: Fleet, scope: Agent -> bool, root: Agent -> bool, k: string, n: nat)
    requires WellKeyed(f) && ClosedUpward(f, scope, root)
    requires k in Selected(f, root) && Grounded(f, k, n)
    ensures k in CascadeSet(f, scope, root)
    decreases n
  {
    var p := f[k].parent;
    if p in Selected(f, scope) {
      SelectedIsCovered(f, scope, root, p, n - 1);
      var r :| r in Selected(f, root) && Started(f[r], Selected(f, scope)) && Under(f, p, r);
      ChildIsUnder(f, k);
      UnderTransitive(f, k, p, r);
    } else {
      assert Climbs(f, k, k, 0);
    }
  }

  lemma AllSelectedCovered(f: Fleet, scope: Agent -> bool, root: Agent -> bool)
    requires WellKeyed(f) && Acyclic(f) && ClosedUpward(f, scope, root)
    ensures Selected(f, root) <= CascadeSet(f, scope, root)
  {
    forall k | k in Selected(f, root) ensures k in CascadeSet(f, scope, root) {
      var n: nat :| Grounded(f, k, n);
      SelectedIsCovered(f, scope, root, k, n);
    }
  }

  /** The cascade theorem: on an acyclic lineage, with a root predicate closed upward within
      its scope, every selected active or pending agent ends revoked and without its tuple,
      and nothing changes except active or pending records below some selected agent. */
  lemma CascadeIsComplete(a: Authority, scope: Agent -> bool, root: Agent -> bool)
    requires WellKeyed(a.fleet) && Acyclic(a.fleet) && ClosedUpward(a.fleet, scope, root)
    ensures var b := RevokeAll(a, CascadeSet(a.fleet, scope, root));
            && (forall k :: k in Selected(a.fleet, root) && Revocable(a.fleet[k].status) ==>
                  b.fleet[k] == a.fleet[k].(status := Revoked) && k !in b.enabled)
            && (forall k :: k in a.fleet && (b.fleet[k] != a.fleet[k] || (k in a.enabled && k !in b.enabled)) ==>
                  Revocable(a.fleet[k].status) && exists r :: r in Selected(a.fleet, root) && Under(a.fleet, k, r))
            && b.fleet.Keys == a.fleet.Keys && b.enabled <= a.enabled
  {
    AllSelectedCovered(a.fleet, scope, root);
  }

  // What the three cascades mean, in terms of the records' own fields.

  /** The listed agents of an org. */
  ghost function AgentsOfOrg(f: Fleet, org: string): set<string> {
    set k | k in f && !f[k].dismissed && f[k].org == org
  }

  /** The listed agents a user owns in an org. */
  ghost function AgentsOfMember(f: Fleet, org: string, user: string): set<string> {
    set k | k in f && !f[k].dismissed && f[k].org == org && f[k].user == user
  }

  /** The listed agents a user owns, and those of them without an org. */
  ghost function AgentsOfUser(f: Fleet, user: string): set<string> {
    set k | k in f && !f[k].dismissed && f[k].user == user
  }

  ghost function OrglessOfUser(f: Fleet, user: string): set<string> {
    set k | k in f && !f[k].dismissed && f[k].user == user && f[k].org == ""
  }

  lemma SelectionsMean(f: Fleet, org: string, user: string)
    ensures Selected(f, InOrg(org)) == AgentsOfOrg(f, org)
    ensures Selected(f, MemberAgent(org, user)) == AgentsOfMember(f, org, user)
    ensures Selected(f, OwnedBy(user)) == AgentsOfUser(f, user)
    ensures Selected(f, OrglessOwnedBy(user)) == OrglessOfUser(f, user)
  {
  }

  /** Between `a` and `b` only active or pending records at or below the chosen ones have changed, and
      only by being revoked; no tuple was added. */
  ghost predicate OnlyBelow(a: Authority, b: Authority, chosen: set<string>) {
    && b.fleet.Keys == a.fleet.Keys && b.enabled <= a.enabled
    && (forall k :: k in a.fleet && b.fleet[k] != a.fleet[k] ==>
          && (a.fleet[k].status == Active || a.fleet[k].status == Pending) && b.fleet[k] == a.fleet[k].(status := Revoked)
          && exists r :: r in chosen && Under(a.fleet, k, r))
    && (forall k :: k in a.enabled && k !in b.enabled ==> k in a.fleet && b.fleet[k] != a.fleet[k])
  }

  /** Every chosen active or pending record is revoked, and its tuple gone unless the delete failed. */
  ghost predicate AllRevoked(a: Authority, b: Authority, chosen: set<string>, stuck: set<string>) {
    forall k :: k in chosen && k in a.fleet && (a.fleet[k].status == Active || a.fleet[k].status == Pending) ==>
      k in b.fleet && b.fleet[k] == a.fleet[k].(status := Revoked) && (k in b.enabled ==> k in stuck)
  }

  lemma CascadeStaysBelow(a: Authority, scope: Agent -> bool, root: Agent -> bool, done: set<string>, stuck: set<string>)
    requires done <= CascadeSet(a.fleet, scope, root)
    ensures OnlyBelow(a, RevokeBut(a, done, stuck), Selected(a.fleet, root))
  {
  }

  lemma CascadeRevokesAll(a: Authority, scope: Agent -> bool, root: Agent -> bool, stuck: set<string>)
    requires WellKeyed(a.fleet) && Acyclic(a.fleet) && ClosedUpward(a.fleet, scope, root)
    ensures AllRevoked(a, RevokeBut(a, CascadeSet(a.fleet, scope, root), stuck), Selected(a.fleet, root), stuck)
  {
    AllSelectedCovered(a.fleet, scope, root);
  }

  /** Suspension by org and removal of a member select their own scope. */
  lemma SameScopeIsClosed(f: Fleet, p: Agent -> bool)
    ensures ClosedUpward(f, p, p)
  {
  }

  /** Deleting a user starts only at org-less agents, which is closed upward because a
      child carries its parent's org. */
  lemma OrglessDeleteIsClosed(f: Fleet, user: string)
    requires OrgInherited(f)
    ensures ClosedUpward(f, OwnedBy(user), OrglessOwnedBy(user))
  {
  }

  /** Without org inheritance the user-delete cascade can miss: an org-less agent under an
      org agent of the same owner is skipped, and its parent is never started. */
  lemma OrglessDeleteNeedsInheritance()
    ensures exists f: Fleet, k ::
      && WellKeyed(f) && Acyclic(f) && k in Selected(f, OrglessOwnedBy("u")) && f[k].status == Active
      && k !in CascadeSet(f, OwnedBy("u"), OrglessOwnedBy("u"))
  {
    var top := Agent("p", "t", "", "u", Active, false, "", "acme", Kubernetes);
    var low := Agent("c", "t", "", "u", Active, false, "p", "", Kubernetes);
    var f: Fleet := map["p" := top, "c" := low];
    assert Grounded(f, "", 0);
    assert Grounded(f, "p", 1);
    assert Grounded(f, "c", 2);
    assert "c" in Selected(f, OrglessOwnedBy("u"));
    assert "p" in Selected(f, OwnedBy("u"));
    assert !Started(f["c"], Selected(f, OwnedBy("u")));
    assert Selected(f, OrglessOwnedBy("u")) == {"c"};
    assert "c" !in CascadeSet(f, OwnedBy("u"), OrglessOwnedBy("u"));
  }

  // Exactly whom a cascade reaches, on any graph and for any two predicates.

  /** `t` is the top of `k`: the first agent, climbing from `k` over listed in-scope parents, whose
      own parent is not one. */
  ghost predicate TopAt(f: Fleet, scope: Agent -> bool, k: string, t: string, n: nat)
    decreases n
  {
    k in f && if f[k].parent in Selected(f, scope) then n > 0 && TopAt(f, scope, f[k].parent, t, n - 1) else n == 0 && t == k
  }

  /** A grounded chain always has a top; only a loop of in-scope agents has none. */
  lemma {:induction false} TopExists(f: Fleet, scope: Agent -> bool, k: string, n: nat) returns (t: string, m: nat)
    requires k in f && Grounded(f, k, n)
    ensures TopAt(f, scope, k, t, m)
    decreases n
  {
    t, m := k, 0;
    if f[k].parent in Selected(f, scope) {
      t, m := TopExists(f, scope, f[k].parent, n - 1);
      m := m + 1;
    }
  }

  lemma {:induction false} TopIsInScope(f: Fleet, scope: Agent -> bool, k: string, t: string, n: nat)
    requires TopAt(f, scope, k, t, n) && k in Selected(f, scope)
    ensures t in Selected(f, scope)
    decreases n
  {
    if n > 0 { TopIsInScope(f, scope, f[k].parent, t, n - 1); }
  }

  /** The cascade starts at the top, or has come down to it from above. */
  ghost predicate ReachedAtTop(f: Fleet, scope: Agent -> bool, root: Agent -> bool, t: string) {
    t in f && (t in Selected(f, root) || f[t].parent in CascadeSet(f, scope, root))
  }

  lemma ChildIsReached(f: Fleet, scope: Agent -> bool, root: Agent -> bool, k: string)
    requires k in f && f[k].parent in CascadeSet(f, scope, root)
    ensures k in CascadeSet(f, scope, root)
  {
    var r :| r in Selected(f, root) && Started(f[r], Selected(f, scope)) && Under(f, f[k].parent, r);
    ChildIsUnder(f, k);
    UnderTransitive(f, k, f[k].parent, r);
  }

  lemma {:induction false} BelowReachedTop(f: Fleet, scope: Agent -> bool, root: Agent -> bool, k: string, t: string, n: nat)
    requires TopAt(f, scope, k, t, n) && ReachedAtTop(f, scope, root, t)
    ensures k in CascadeSet(f, scope, root)
    decreases n
  {
    if n > 0 {
      BelowReachedTop(f, scope, root, f[k].parent, t, n - 1);
      ChildIsReached(f, scope, root, k);
    } else if f[k].parent in CascadeSet(f, scope, root) {
      ChildIsReached(f, scope, root, k);
    } else {
      assert Climbs(f, k, k, 0);
    }
  }

  lemma {:induction false} ReachedHasTop(f: Fleet, scope: Agent -> bool, root: Agent -> bool, k: string, r: string, m: nat)
    returns (t: string, n: nat)
    requires WellKeyed(f) && k in f
    requires r in Selected(f, root) && Started(f[r], Selected(f, scope)) && Climbs(f, k, r, m)
    ensures TopAt(f, scope, k, t, n) && ReachedAtTop(f, scope, root, t)
    decreases m
  {
    if f[k].parent in Selected(f, scope) {
      t, n := ReachedHasTop(f, scope, root, f[k].parent, r, m - 1);
      n := n + 1;
    } else {
      t, n := k, 0;
      if m > 0 {
        assert Climbs(f, f[k].parent, r, m - 1);
        assert Under(f, f[k].parent, r);
      }
    }
  }

  /** The reach theorem: a cascade reaches an agent iff climbing its listed in-scope parents comes
      to an end, at an agent where the cascade starts or whose own parent it reaches. */
  lemma CascadeReachesIff(f: Fleet, scope: Agent -> bool, root: Agent -> bool, k: string)
    requires WellKeyed(f) && k in f
    ensures k in CascadeSet(f, scope, root) <==> exists t, n: nat :: TopAt(f, scope, k, t, n) && ReachedAtTop(f, scope, root, t)
  {
    if k in CascadeSet(f, scope, root) {
      var r :| r in Selected(f, root) && Started(f[r], Selected(f, scope)) && Under(f, k, r);
      var m: nat :| Climbs(f, k, r, m);
      var t, n := ReachedHasTop(f, scope, root, k, r, m);
      assert exists u, i: nat :: TopAt(f, scope, k, u, i) && ReachedAtTop(f, scope, root, u);
    }
    if t, n: nat :| TopAt(f, scope, k, t, n) && ReachedAtTop(f, scope, root, t) {
      BelowReachedTop(f, scope, root, k, t, n);
    }
  }

  /** When scope and root coincide, as in org suspension and member removal, every selected agent
      with a top is reached: only a loop made wholly of selected agents, or a descendant of one
      through selected agents, is ever missed. */
  lemma SuspensionReachesIff(f: Fleet, p: Agent -> bool, k: string)
    requires WellKeyed(f) && k in Selected(f, p)
    ensures k in CascadeSet(f, p, p) <==> exists t, n: nat :: TopAt(f, p, k, t, n)
  {
    CascadeReachesIff(f, p, p, k);
    forall t, n: nat | TopAt(f, p, k, t, n) ensures ReachedAtTop(f, p, p, t) {
      TopIsInScope(f, p, k, t, n);
    }
  }

  /** User deletion reaches an org-less agent iff the topmost agent of the same owner above it is
      org-less too, or hangs below an agent that is reached. */
  lemma OrglessDeleteReachesIff(f: Fleet, user: string, k: string)
    requires WellKeyed(f) && k in Selected(f, OrglessOwnedBy(user))
    ensures k in CascadeSet(f, OwnedBy(user), OrglessOwnedBy(user)) <==>
            exists t, n: nat :: TopAt(f, OwnedBy(user), k, t, n) && t in f
                                && (f[t].org == "" || f[t].parent in CascadeSet(f, OwnedBy(user), OrglessOwnedBy(user)))
  {
    var scope, root := OwnedBy(user), OrglessOwnedBy(user);
    CascadeReachesIff(f, scope, root, k);
    forall t, n: nat | TopAt(f, scope, k, t, n)
      ensures t in f && (ReachedAtTop(f, scope, root, t) <==> f[t].org == "" || f[t].parent in CascadeSet(f, scope, root))
    {
      TopIsInScope(f, scope, k, t, n);
    }
  }

  /** A two-agent loop in one org defeats the suspension entirely. */
  lemma LoopDefeatsSuspension()
    ensures exists f: Fleet :: WellKeyed(f) && Selected(f, InOrg("o")) == {"a", "b"} && CascadeSet(f, InOrg("o"), InOrg("o")) == {}
  {
    var f: Fleet := map[
      "a" := Agent("a", "t", "", "u", Active, false, "b", "o", Kubernetes),
      "b" := Agent("b", "t", "", "u", Active, false, "a", "o", Kubernetes)];
    assert "a" in Selected(f, InOrg("o")) && "b" in Selected(f, InOrg("o"));
    assert Selected(f, InOrg("o")) == {"a", "b"};
    assert !Started(f["a"], Selected(f, InOrg("o"))) && !Started(f["b"], Selected(f, InOrg("o")));
    assert CascadeSet(f, InOrg("o"), InOrg("o")) == {};
  }
}
