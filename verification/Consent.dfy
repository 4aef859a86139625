/** The consent broker: stored grants per spawn edge, brokered requests, and the index of
    open requests. Time is an integer clock; ids come from the caller and are fresh. */
module Consent {
  import opened Common

  datatype Verdict = Pending | Approved | Denied

  datatype Grant = Grant(id: string, user: string, scopes: seq<string>, expires: Option<int>, revoked: bool)

  datatype Request = Request(
    user: string, parentType: string, childType: string, agent: string,
    scopes: seq<string>, status: Verdict, resolvedAt: Option<int>)

  /** grants by edge key, requests by id, open request id by open key. */
  datatype Broker = Broker(grants: map<string, Grant>, requests: map<string, Request>, open: map<string, string>)

  function EdgeKey(user: string, parentType: string, childType: string): string {
    user + "|" + parentType + "|" + childType
  }

  /** Requests are deduplicated per waiting agent when one is named, else per edge. */
  function OpenKey(r: Request): string {
    if r.agent != "" then "agent:" + r.agent else EdgeKey(r.user, r.parentType, r.childType)
  }

  function Edge(r: Request): string {
    EdgeKey(r.user, r.parentType, r.childType)
  }

  /** Components without a bar make the edge key unambiguous. */
  lemma EdgeKeyInjective(u1: string, p1: string, c1: string, u2: string, p2: string, c2: string)
    requires '|' !in u1 && '|' !in u2 && '|' !in p1 && '|' !in p2
    requires EdgeKey(u1, p1, c1) == EdgeKey(u2, p2, c2)
    ensures u1 == u2 && p1 == p2 && c1 == c2
  {
    assert EdgeKey(u1, p1, c1) == u1 + ("|" + (p1 + ("|" + c1)));
    assert EdgeKey(u2, p2, c2) == u2 + ("|" + (p2 + ("|" + c2)));
    FirstBar(u1, p1 + ("|" + c1), u2, p2 + ("|" + c2));
    FirstBar(p1, c1, p2, c2);
  }

  lemma FirstBar(a: string, x: string, b: string, y: string)
    requires '|' !in a && '|' !in b && a + ("|" + x) == b + ("|" + y)
    ensures a == b && x == y
  {
    var l, r := a + ("|" + x), b + ("|" + y);
    assert l[|a|] == '|' && r[|b|] == '|';
    assert forall i :: 0 <= i < |a| ==> l[i] == a[i] && a[i] in a;
    assert forall i :: 0 <= i < |b| ==> r[i] == b[i] && b[i] in b;
    assert a == l[..|a|] == r[..|b|] == b;
    assert x == l[|a| + 1..] == r[|b| + 1..] == y;
  }

  /** The first requested scope outside the granted ones, or the empty string. */
  function FirstUncovered(granted: seq<string>, requested: seq<string>): string {
    if requested == [] then ""
    else if requested[0] !in granted then requested[0]
    else FirstUncovered(granted, requested[1..])
  }

  predicate Covers(g: Grant, requested: seq<string>, now: int) {
    !g.revoked && !(g.expires.Some? && now > g.expires.value) && FirstUncovered(g.scopes, requested) == ""
  }

  ghost predicate Subset(requested: seq<string>, granted: seq<string>) {
    forall s :: s in requested ==> s in granted
  }

  /** The empty scope is met before any other scope that is not granted. */
  ghost predicate EmptyScopeHidesRest(granted: seq<string>, requested: seq<string>) {
    "" !in granted && exists k :: 0 <= k < |requested| && requested[k] == "" && forall j :: 0 <= j < k ==> requested[j] in granted
  }

  /** "No uncovered scope" and "the first uncovered scope is the empty one" look alike to the
      caller, so scope coverage means containment exactly when the latter is ruled out. */
  lemma {:induction false} CoverageMeansContainmentIff(granted: seq<string>, requested: seq<string>)
    ensures (FirstUncovered(granted, requested) == "" <==> Subset(requested, granted)) <==> !EmptyScopeHidesRest(granted, requested)
    ensures FirstUncovered(granted, requested) == "" <==> Subset(requested, granted) || EmptyScopeHidesRest(granted, requested)
    ensures Subset(requested, granted) ==> !EmptyScopeHidesRest(granted, requested)
    decreases |requested|
  {
    if requested != [] {
      var rest := requested[1..];
      CoverageMeansContainmentIff(granted, rest);
      assert forall s :: s in requested <==> s == requested[0] || s in rest;
      if requested[0] !in granted {
        assert requested[0] in requested;
        if requested[0] == "" { assert EmptyScopeHidesRest(granted, requested); }
      } else {
        if EmptyScopeHidesRest(granted, rest) {
          var k :| 0 <= k < |rest| && rest[k] == "" && forall j :: 0 <= j < k ==> rest[j] in granted;
          assert requested[k + 1] == "";
          assert forall j :: 0 <= j < k + 1 ==> requested[j] in granted;
          assert EmptyScopeHidesRest(granted, requested);
        }
        if EmptyScopeHidesRest(granted, requested) {
          var k :| 0 <= k < |requested| && requested[k] == "" && forall j :: 0 <= j < k ==> requested[j] in granted;
          assert k > 0 && rest[k - 1] == "";
          assert forall j :: 0 <= j < k - 1 ==> rest[j] == requested[j + 1] && rest[j] in granted;
        }
      }
    }
  }

  /** A grant covers a request iff it is not revoked, not past its expiry, and its scopes contain the
      requested ones (or the empty scope hides the rest). */
  lemma CoversIff(g: Grant, requested: seq<string>, now: int)
    ensures Covers(g, requested, now) <==>
            && g.revoked == false && (g.expires == None || now <= g.expires.value)
            && ((forall s :: s in requested ==> s in g.scopes) || EmptyScopeHidesRest(g.scopes, requested))
  {
    CoverageMeansContainmentIff(g.scopes, requested);
  }

  /** Two requests share an open key iff they name the same waiting agent, or name none and are on the
      same edge. */
  lemma OpenKeyIff(r: Request, q: Request)
    requires '|' !in r.agent && '|' !in q.agent
    ensures OpenKey(r) == OpenKey(q) <==> r.agent == q.agent && (r.agent == "" ==> Edge(r) == Edge(q))
  {
    if r.agent != "" && q.agent != "" { assert OpenKey(r)[6..] == r.agent && OpenKey(q)[6..] == q.agent; }
    BarInEdge(r);
    BarInEdge(q);
  }

  lemma BarInEdge(r: Request)
    ensures '|' in Edge(r)
  {
    assert Edge(r)[|r.user|] == '|';
  }

  // Operations on the broker, as functions.

  function Resolved(r: Request, v: Verdict, now: int): Request {
    r.(status := v, resolvedAt := Some(now))
  }

  function Close(b: Broker, id: string, v: Verdict, now: int): Broker
    requires id in b.requests
  {
    var r := b.requests[id];
    b.(requests := b.requests[id := Resolved(r, v, now)], open := b.open - {OpenKey(r)})
  }

  function CreatePending(b: Broker, id: string, r: Request): Broker {
    var q := r.(status := Pending, resolvedAt := None);
    var k := OpenKey(r);
    if k in b.open && b.open[k] in b.requests && b.requests[b.open[k]].status.Pending? then b
    else b.(requests := b.requests[id := q], open := b.open[k := id])
  }

  function CreateApproved(b: Broker, id: string, r: Request, now: int): Broker {
    b.(requests := b.requests[id := Resolved(r, Approved, now)])
  }

  /** Flip to approved without looking at any grant; a resolved request is left alone. */
  function ApprovePending(b: Broker, id: string, now: int): Broker {
    if id in b.requests && b.requests[id].status.Pending? then Close(b, id, Approved, now) else b
  }

  function Upsert(b: Broker, key: string, g: Grant): Broker {
    b.(grants := b.grants[key := if key in b.grants then g.(id := b.grants[key].id) else g])
  }

  /** The pending requests, other than `id`, on the granted edge and covered by the grant. */
  function Swept(b: Broker, id: string, g: Grant, now: int): set<string>
    requires id in b.requests
  {
    set r | r in b.requests && r != id && b.requests[r].status.Pending? && Edge(b.requests[r]) == Edge(b.requests[id])
            && Covers(g, b.requests[r].scopes, now)
  }

  function ApproveAll(b: Broker, ids: set<string>, now: int): Broker {
    b.(requests := map r | r in b.requests :: if r in ids then Resolved(b.requests[r], Approved, now) else b.requests[r],
       open := b.open - (set r | r in ids && r in b.requests :: OpenKey(b.requests[r])))
  }

  /** What the unlocked half of resolve hands to the locked half. */
  datatype Plan = Plan(approve: bool, scopes: seq<string>, expires: Option<int>, now: int)

  /** The grant an approval writes; `gid` is used only when the edge has no grant yet. */
  function NewGrant(r: Request, p: Plan, gid: string): Grant {
    Grant(gid, r.user, p.scopes, p.expires, false)
  }

  /** The locked half of resolve: nothing unless still pending; a denial closes the request; an
      approval closes it, writes the grant and sweeps. */
  function Commit(b: Broker, id: string, p: Plan, gid: string): Broker {
    if id !in b.requests || !b.requests[id].status.Pending? then b
    else if !p.approve then Close(b, id, Denied, p.now)
    else
      var g := NewGrant(b.requests[id], p, gid);
      var c := Upsert(Close(b, id, Approved, p.now), Edge(b.requests[id]), g);
      ApproveAll(c, Swept(c, id, g, p.now), p.now)
  }

  /** A resolve is refused for an unknown request or another user's; an approval that names no
      scopes grants the requested ones. */
  function PlanFor(
    b: Broker, id: string, user: string, approve: bool, scopes: Option<seq<string>>, expires: Option<int>, now: int): Option<Plan>
  {
    if id !in b.requests || (user != "" && b.requests[id].user != user) then None
    else if approve then Some(Plan(true, if scopes.Some? then scopes.value else b.requests[id].scopes, expires, now))
    else Some(Plan(false, if scopes.Some? then scopes.value else [], None, now))
  }

  lemma {:induction false} CoversItself(granted: seq<string>, requested: seq<string>)
    requires Subset(requested, granted)
    ensures FirstUncovered(granted, requested) == ""
    decreases |requested|
  {
    if requested != [] { CoversItself(granted, requested[1..]); }
  }

  /** What a resolve leads to, for its caller. It is refused exactly for an unknown request or
      another user's. Committed at once on a pending request it gives the verdict asked for; a denial
      leaves every grant alone; and an approval leaves on the request's edge a live grant of the
      request's user, with the expiry given and exactly the scopes named, or the requested ones when
      none are. */
  lemma ResolveMeans(
    b: Broker, id: string, user: string, approve: bool, scopes: Option<seq<string>>, expires: Option<int>, now: int, gid: string)
    ensures PlanFor(b, id, user, approve, scopes, expires, now).None? <==> id !in b.requests || (user != "" && b.requests[id].user != user)
    ensures var plan := PlanFor(b, id, user, approve, scopes, expires, now);
            plan.Some? && b.requests[id].status.Pending? ==>
              var c, r := Commit(b, id, plan.value, gid), b.requests[id];
              var edge := EdgeKey(r.user, r.parentType, r.childType);
              && id in c.requests && c.requests[id] == r.(status := if approve then Approved else Denied, resolvedAt := Some(now))
              && (!approve ==> c.grants == b.grants)
              && (approve ==>
                    && edge in c.grants && c.grants[edge].user == r.user && !c.grants[edge].revoked && c.grants[edge].expires == expires
                    && c.grants[edge].scopes == (if scopes.Some? then scopes.value else r.scopes)
                    && c.grants[edge].id == (if edge in b.grants then b.grants[edge].id else gid))
  {
    var plan := PlanFor(b, id, user, approve, scopes, expires, now);
    if plan.Some? && b.requests[id].status.Pending? && approve { ApprovalIsExact(b, id, plan.value, gid); }
  }

  /** So an approval that names no scopes covers its own request until the grant expires. */
  lemma ApprovalCoversItsRequest(b: Broker, id: string, user: string, expires: Option<int>, now: int, gid: string, later: int)
    requires id in b.requests && b.requests[id].status.Pending? && PlanFor(b, id, user, true, None, expires, now).Some?
    requires expires.Some? ==> later <= expires.value
    ensures var c := Commit(b, id, PlanFor(b, id, user, true, None, expires, now).value, gid);
            Edge(b.requests[id]) in c.grants && Covers(c.grants[Edge(b.requests[id])], b.requests[id].scopes, later)
  {
    ResolveMeans(b, id, user, true, None, expires, now, gid);
    CoversItself(b.requests[id].scopes, b.requests[id].scopes);
  }

  /** The open index says exactly which requests are pending: at most one per open key. */
  ghost predicate IndexExact(b: Broker) {
    && (forall k :: k in b.open ==>
          b.open[k] in b.requests && b.requests[b.open[k]].status.Pending? && OpenKey(b.requests[b.open[k]]) == k)
    && (forall id :: id in b.requests && b.requests[id].status.Pending? ==>
          OpenKey(b.requests[id]) in b.open && b.open[OpenKey(b.requests[id])] == id)
  }

  ghost predicate UniqueIds(grants: map<string, Grant>) {
    forall k, l :: k in grants && l in grants && grants[k].id == grants[l].id ==> k == l
  }

  lemma OnePendingPerKey(b: Broker, id1: string, id2: string)
    requires IndexExact(b) && id1 in b.requests && id2 in b.requests
    requires b.requests[id1].status.Pending? && b.requests[id2].status.Pending?
    requires OpenKey(b.requests[id1]) == OpenKey(b.requests[id2])
    ensures id1 == id2
  {
  }

  lemma CloseKeepsIndex(b: Broker, id: string, v: Verdict, now: int)
    requires IndexExact(b) && id in b.requests && b.requests[id].status.Pending? && !v.Pending?
    ensures IndexExact(Close(b, id, v, now))
  {
    var k := OpenKey(b.requests[id]);
    assert b.open[k] == id;
    assert forall l :: l in b.open && l != k ==> b.open[l] != id;
  }

  lemma ApproveNone(b: Broker, now: int)
    ensures ApproveAll(b, {}, now) == b
  {
    assert ApproveAll(b, {}, now).requests == b.requests && ApproveAll(b, {}, now).open == b.open;
  }

  lemma ApproveOneMore(b: Broker, ids: set<string>, id: string, now: int)
    requires id in b.requests && id !in ids
    ensures var c := ApproveAll(b, ids, now);
            && c.requests[id] == b.requests[id]
            && ApproveAll(b, ids + {id}, now) ==
               c.(requests := c.requests[id := Resolved(b.requests[id], Approved, now)], open := c.open - {OpenKey(b.requests[id])})
  {
    var c, d := ApproveAll(b, ids, now), ApproveAll(b, ids + {id}, now);
    assert d.requests == c.requests[id := Resolved(b.requests[id], Approved, now)];
    assert d.open == c.open - {OpenKey(b.requests[id])};
  }

  lemma ApproveAllKeepsIndex(b: Broker, ids: set<string>, now: int)
    requires IndexExact(b) && forall r :: r in ids ==> r in b.requests && b.requests[r].status.Pending?
    ensures IndexExact(ApproveAll(b, ids, now))
  {
    var c := ApproveAll(b, ids, now);
    forall id | id in c.requests && c.requests[id].status.Pending?
      ensures OpenKey(c.requests[id]) in c.open && c.open[OpenKey(c.requests[id])] == id
    {
      assert b.requests[id] == c.requests[id] && id !in ids;
      forall r | r in ids ensures OpenKey(b.requests[r]) != OpenKey(b.requests[id]) {
        if OpenKey(b.requests[r]) == OpenKey(b.requests[id]) { OnePendingPerKey(b, r, id); }
      }
    }
    forall k | k in c.open
      ensures c.open[k] in c.requests && c.requests[c.open[k]].status.Pending? && OpenKey(c.requests[c.open[k]]) == k
    {
      assert k in b.open && c.open[k] == b.open[k];
      assert b.open[k] !in ids;
    }
  }

  lemma CommitKeepsIndex(b: Broker, id: string, p: Plan, gid: string)
    requires IndexExact(b)
    ensures IndexExact(Commit(b, id, p, gid))
  {
    if id in b.requests && b.requests[id].status.Pending? {
      CloseKeepsIndex(b, id, Denied, p.now);
      CloseKeepsIndex(b, id, Approved, p.now);
      var g := NewGrant(b.requests[id], p, gid);
      var c := Upsert(Close(b, id, Approved, p.now), Edge(b.requests[id]), g);
      assert IndexExact(c);
      ApproveAllKeepsIndex(c, Swept(c, id, g, p.now), p.now);
    }
  }

  lemma CommitKeepsIds(b: Broker, id: string, p: Plan, gid: string)
    requires UniqueIds(b.grants) && forall k :: k in b.grants ==> b.grants[k].id != gid
    ensures UniqueIds(Commit(b, id, p, gid).grants)
  {
  }

  /** An approval flips exactly the other pending requests on its edge that the new grant covers,
      and touches no grant but the edge's own, whose id survives. */
  lemma ApprovalIsExact(b: Broker, id: string, p: Plan, gid: string)
    requires id in b.requests && b.requests[id].status.Pending? && p.approve
    ensures var c := Commit(b, id, p, gid);
            var edge, g := Edge(b.requests[id]), NewGrant(b.requests[id], p, gid);
            && c.requests.Keys == b.requests.Keys
            && c.requests[id] == Resolved(b.requests[id], Approved, p.now)
            && (forall r :: r in b.requests && r != id ==>
                  c.requests[r] == if b.requests[r].status.Pending? && Edge(b.requests[r]) == edge && Covers(g, b.requests[r].scopes, p.now)
                                   then Resolved(b.requests[r], Approved, p.now) else b.requests[r])
            && c.grants.Keys == b.grants.Keys + {edge}
            && c.grants[edge] == (if edge in b.grants then g.(id := b.grants[edge].id) else g)
            && (forall k :: k in b.grants && k != edge ==> c.grants[k] == b.grants[k])
  {
  }

  /** The sweep after an approval, visiting the requests in whatever order the map yields them. */
  method SweepPending(
    grants: map<string, Grant>, requests: map<string, Request>, open: map<string, string>, id: string, granted: Grant, now: int)
    returns (requests': map<string, Request>, open': map<string, string>)
    requires id in requests
    ensures var b := Broker(grants, requests, open);
            Broker(grants, requests', open') == ApproveAll(b, Swept(b, id, granted, now), now)
  {
    ghost var b := Broker(grants, requests, open);
    ghost var all := Swept(b, id, granted, now);
    ApproveNone(b, now);
    requests', open' := requests, open;
    var key := Edge(requests[id]);
    var todo := requests.Keys;
    assert all - todo == {};
    while todo != {}
      invariant todo <= requests.Keys
      invariant Broker(grants, requests', open') == ApproveAll(b, all - todo, now)
      decreases |todo|
    {
      var rid :| rid in todo;
      ApproveOneMore(b, all - todo, rid, now);
      OneFewer(all, todo, rid);
      todo := todo - {rid};
      var other := requests'[rid];
      if rid != id && other.status == Pending && Edge(other) == key && Covers(granted, other.scopes, now) {
        requests' := requests'[rid := other.(status := Approved, resolvedAt := Some(now))];
        open' := open' - {OpenKey(other)};
      }
    }
    assert all - todo == all;
  }

  lemma OneFewer(all: set<string>, todo: set<string>, x: string)
    requires x in todo
    ensures all - (todo - {x}) == if x in all then (all - todo) + {x} else all - todo
  {
  }

  /** The store's own form of these operations, over maps it updates in place. Each method is
      one section under the store's lock. */
  class Store {
    var grants: map<string, Grant>
    var requests: map<string, Request>
    var open: map<string, string>

    ghost function View(): Broker
      reads this
    {
      Broker(grants, requests, open)
    }

    ghost predicate Valid()
      reads this
    {
      IndexExact(View()) && UniqueIds(grants)
    }

    constructor ()
      ensures Valid() && View() == Broker(map[], map[], map[])
    {
      grants, requests, open := map[], map[], map[];
    }

    /** Never opens a second request under a key, and never meets a stale index entry. */
    method CreateConsentRequest(id: string, r: Request) returns (stored: Request, created: bool)
      requires Valid() && id !in requests
      modifies this`requests, this`open
      ensures Valid() && View() == CreatePending(old(View()), id, r)
      ensures stored.status == Pending && OpenKey(stored) == OpenKey(r)
      ensures created <==> OpenKey(r) !in old(open)
      ensures requests[if created then id else open[OpenKey(r)]] == stored
      ensures created ==> stored == r.(status := Pending, resolvedAt := None) && open[OpenKey(r)] == id
      ensures !created ==> View() == old(View())
    {
      var k := OpenKey(r);
      if k in open {
        if open[k] in requests && requests[open[k]].status == Pending {
          return requests[open[k]], false;
        }
      }
      stored := r.(status := Pending, resolvedAt := None);
      requests := requests[id := stored];
      open := open[k := id];
      created := true;
    }

    method ApprovePendingConsentRequest(id: string, now: int) returns (r: Option<Request>)
      requires Valid()
      modifies this`requests, this`open
      ensures Valid() && View() == ApprovePending(old(View()), id, now)
      ensures r == if id in requests then Some(requests[id]) else None
      ensures r.Some? ==> !r.value.status.Pending?
      ensures id in old(requests) && old(requests)[id].status == Pending ==>
                r == Some(old(requests)[id].(status := Approved, resolvedAt := Some(now)))
      ensures id in old(requests) && old(requests)[id].status != Pending ==> View() == old(View())
    {
      if id !in requests { return None; }
      var cr := requests[id];
      if cr.status != Pending { return Some(cr); }
      CloseKeepsIndex(View(), id, Approved, now);
      cr := cr.(status := Approved, resolvedAt := Some(now));
      requests := requests[id := cr];
      open := open - {OpenKey(cr)};
      return Some(cr);
    }

    /** The unlocked half of resolve: scoping to the user, and what an approval will grant. */
    method ResolveCheck(id: string, user: string, approve: bool, scopes: Option<seq<string>>, expires: Option<int>, now: int)
      returns (plan: Option<Plan>)
      ensures plan == PlanFor(View(), id, user, approve, scopes, expires, now)
      ensures plan.None? <==> id !in requests || (user != "" && requests[id].user != user)
      ensures plan.Some? && approve ==> plan.value.scopes == if scopes.Some? then scopes.value else requests[id].scopes
      ensures plan.Some? ==> plan.value.approve == approve && plan.value.now == now && (approve ==> plan.value.expires == expires)
    {
      if id !in requests || (user != "" && requests[id].user != user) { return None; }
      var grantScopes := if scopes.Some? then scopes.value else [];
      var expiry := None;
      if approve {
        if scopes.None? { grantScopes := requests[id].scopes; }
        expiry := expires;
      }
      return Some(Plan(approve, grantScopes, expiry, now));
    }

    /** The locked half. The sweep visits the request map in no particular order. */
    method ResolveCommit(id: string, p: Plan, gid: string)
      requires Valid() && (forall k :: k in grants ==> grants[k].id != gid)
      modifies this
      ensures Valid() && View() == Commit(old(View()), id, p, gid)
    {
      ghost var b := View();
      CommitKeepsIndex(b, id, p, gid);
      CommitKeepsIds(b, id, p, gid);
      if id !in requests { return; }
      var cr := requests[id];
      if cr.status != Pending { return; }
      if p.approve {
        Approve(id, p, gid);
      } else {
        requests := requests[id := cr.(status := Denied, resolvedAt := Some(p.now))];
        open := open - {OpenKey(cr)};
      }
      assert View() == Commit(b, id, p, gid);
    }

    method Approve(id: string, p: Plan, gid: string)
      requires id in requests && requests[id].status.Pending? && p.approve
      modifies this
      ensures View() == Commit(old(View()), id, p, gid)
    {
      var cr := requests[id];
      requests := requests[id := cr.(status := Approved, resolvedAt := Some(p.now))];
      open := open - {OpenKey(cr)};
      var key := EdgeKey(cr.user, cr.parentType, cr.childType);
      var granted := Grant(if key in grants then grants[key].id else gid, cr.user, p.scopes, p.expires, false);
      grants := grants[key := granted];
      assert Swept(View(), id, granted, p.now) == Swept(View(), id, NewGrant(cr, p, gid), p.now);
      requests, open := SweepPending(grants, requests, open, id, granted, p.now);
    }

    /** Marks one grant revoked, found by id and, when given, by owner. */
    method RevokeConsent(id: string, user: string) returns (found: bool)
      requires Valid()
      modifies this`grants
      ensures Valid()
      ensures found <==> exists k :: k in old(grants) && Named(old(grants)[k], id, user)
      ensures grants == RevokedAt(old(grants), set k | k in old(grants) && Named(old(grants)[k], id, user))
      ensures grants.Keys == old(grants).Keys && forall k :: k in grants ==>
                grants[k] == if old(grants)[k].id == id && (user == "" || old(grants)[k].user == user)
                             then old(grants)[k].(revoked := true) else old(grants)[k]
    {
      var todo := grants.Keys;
      found := false;
      while todo != {}
        invariant todo <= grants.Keys && grants == old(grants)
        invariant forall k :: k in grants && k !in todo ==> !Named(grants[k], id, user)
        decreases |todo|
      {
        var k :| k in todo;
        todo := todo - {k};
        if Named(grants[k], id, user) {
          grants := grants[k := grants[k].(revoked := true)];
          assert forall l :: l in old(grants) && Named(old(grants)[l], id, user) ==> l == k;
          return true;
        }
      }
    }

    /** Deleting a user revokes every grant of theirs and no one else's; the empty name is everyone. */
    method PurgeUserConsents(user: string)
      requires Valid()
      modifies this`grants
      ensures Valid()
      ensures grants == RevokedAt(old(grants), set k | k in old(grants) && (user == "" || old(grants)[k].user == user))
    {
      ghost var before := grants;
      ghost var all := set k | k in before && (user == "" || before[k].user == user);
      var todo := set k | k in grants && (user == "" || grants[k].user == user);
      RevokedNowhere(before);
      while todo != {}
        invariant todo <= all && grants == RevokedAt(before, all - todo)
        decreases |todo|
      {
        var k :| k in todo;
        RevokedStep(before, all - todo, k, user);
        assert all - (todo - {k}) == (all - todo) + {k};
        var found := RevokeConsent(grants[k].id, user);
        todo := todo - {k};
      }
      assert all - todo == all;
    }
  }

  lemma RevokedNowhere(grants: map<string, Grant>)
    ensures RevokedAt(grants, {}) == grants
  {
  }

  /** Revoking by id and owner after others were revoked adds exactly the named edge. */
  lemma RevokedStep(grants: map<string, Grant>, ks: set<string>, k: string, user: string)
    requires UniqueIds(grants) && k in grants && (user == "" || grants[k].user == user)
    ensures var now := RevokedAt(grants, ks);
            && UniqueIds(now)
            && RevokedAt(now, set l | l in now && Named(now[l], now[k].id, user)) == RevokedAt(grants, ks + {k})
  {
    var now := RevokedAt(grants, ks);
    assert forall l :: l in now ==> now[l].id == grants[l].id && now[l].user == grants[l].user;
    assert (set l | l in now && Named(now[l], now[k].id, user)) == {k};
    assert RevokedAt(now, {k}) == RevokedAt(grants, ks + {k});
  }

  function RevokedAt(grants: map<string, Grant>, ks: set<string>): map<string, Grant> {
    map k | k in grants :: if k in ks then grants[k].(revoked := true) else grants[k]
  }

  predicate Named(g: Grant, id: string, user: string) {
    g.id == id && (user == "" || g.user == user)
  }
}
