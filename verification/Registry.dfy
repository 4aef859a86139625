/** The registry's agent store: the breadth-first subtree walk, the depth walk, and the
    revoke, resume and cascade operations built on them. */
module Registry {
  import opened Common
  import opened Lineage
  import opened Revocation
  import opened Cascade

  ghost predicate Sorted(s: seq<nat>) {
    forall i, j :: 0 <= i < j < |s| ==> s[i] <= s[j]
  }

  /** `out` is the subtree of `root`: all of it, nothing else, each id once, root first,
      nearer ids before farther ones. */
  ghost predicate IsSubtree(f: Fleet, root: string, out: seq<string>) {
    && |out| > 0 && out[0] == root
    && Distinct(out)
    && (forall x :: x in out <==> Under(f, x, root))
    && (forall i, j, m: nat, n: nat ::
          0 <= i < j < |out| && AtDistance(f, out[i], root, m) && AtDistance(f, out[j], root, n) ==> m <= n)
  }

  /** What may go wrong outside: listing all agents, and by agent id a record read, a listing of
      children, a status write, an `enabled` tuple call, an `owner` tuple call. */
  datatype Outage = Outage(
    listing: bool, gets: set<string>, lists: set<string>, writes: set<string>, tuples: set<string>, owners: set<string>)

  /** No error stops a cascade at this record. */
  predicate Clear(f: Fleet, x: string, o: Outage) {
    x !in o.lists && x !in o.gets && (x in f && Revocable(f[x].status) ==> x !in o.writes)
  }

  /** As above for a resume, which writes revoked records only. */
  predicate ClearToResume(f: Fleet, x: string, o: Outage) {
    x !in o.lists && x !in o.gets && (x in f && f[x].status.Revoked? ==> x !in o.writes)
  }

  /** How a request over a subtree ends. A failure is an error answer after partial work. */
  datatype Reply = NotFound | Refused | Failure | Done(ids: seq<string>)

  /** Some of the subtree has been revoked, and not all of it if there is one. */
  ghost predicate PartlyRevoked(a: Authority, b: Authority, id: string, o: Outage) {
    exists part :: PartOf(a.fleet, part, id) && b == RevokeBut(a, part, o.tuples)
  }

  ghost predicate PartlyResumed(a: Authority, b: Authority, id: string, o: Outage) {
    exists part :: PartOf(a.fleet, part, id) && b == ResumeBut(a, part, o.tuples)
  }

  ghost predicate PartOf(f: Fleet, part: set<string>, id: string) {
    part <= Descendants(f, id) && (id in f ==> part != Descendants(f, id))
  }

  ghost predicate AllClear(f: Fleet, xs: set<string>, o: Outage) {
    forall x :: x in xs ==> Clear(f, x, o)
  }

  lemma UnreadIsNotClear(f: Fleet, id: string, o: Outage)
    requires id in f
    ensures AllClear(f, Descendants(f, id), o) ==> id !in o.gets && forall x :: Under(f, x, id) ==> x !in o.lists
  {
    SelfUnder(f, id);
    assert id in Descendants(f, id);
    if AllClear(f, Descendants(f, id), o) {
      forall x | Under(f, x, id) ensures x !in o.lists {
        assert x in Descendants(f, id);
        assert Clear(f, x, o);
      }
    }
  }

  lemma SameDescendants(f: Fleet, g: Fleet, id: string)
    requires SameEdges(f, g)
    ensures Descendants(f, id) == Descendants(g, id)
  {
    SameEdgesUnder(f, g);
  }

  /** Where the cascade has passed, a later subtree meets no write it could fail on. */
  lemma StillClear(a: Authority, done: set<string>, next: set<string>, o: Outage)
    requires AllClear(a.fleet, done, o)
    ensures AllClear(RevokeBut(a, done, o.tuples).fleet, next, o) <==> AllClear(a.fleet, next, o)
  {
    var f := RevokeBut(a, done, o.tuples).fleet;
    forall x | x in next ensures Clear(f, x, o) <==> Clear(a.fleet, x, o) {
      if x in a.fleet && x !in done { assert f[x] == a.fleet[x]; }
    }
  }

  /** A finished climb has met everything `id` leads to. */
  lemma TrailIsAll(f: Fleet, id: string, trail: seq<string>, cur: string)
    requires Trail(f, id, trail, cur) && (cur !in f || cur in trail)
    ensures forall y :: Leads(f, id, y) ==> y in trail || (y == cur && cur !in f)
  {
    forall y | Leads(f, id, y) ensures y in trail || (y == cur && cur !in f) {
      var n: nat :| Climbs(f, id, y, n);
      TrailIsWhole(f, id, trail, cur, y, n);
    }
  }

  /** The ids met so far while climbing from `id`, in order, and where the climb stands. */
  ghost predicate Trail(f: Fleet, id: string, trail: seq<string>, cur: string) {
    && (forall i :: 0 <= i < |trail| ==> trail[i] in f && Climbs(f, id, trail[i], i))
    && Climbs(f, id, cur, |trail|)
  }

  lemma TrailGrows(f: Fleet, id: string, trail: seq<string>, cur: string)
    requires Trail(f, id, trail, cur) && cur in f
    ensures Trail(f, id, trail + [cur], f[cur].parent)
  {
    var p := f[cur].parent;
    assert Climbs(f, p, p, 0);
    assert Climbs(f, cur, p, 1);
    ClimbsCompose(f, id, cur, p, |trail|, 1);
  }

  /** Once the climb leaves the store or meets an id again, it has met every ancestor. */
  lemma {:induction false} TrailIsWhole(f: Fleet, id: string, trail: seq<string>, cur: string, y: string, n: nat)
    requires Trail(f, id, trail, cur) && (cur !in f || cur in trail) && Climbs(f, id, y, n)
    ensures y in trail || (y == cur && cur !in f)
    decreases n
  {
    if n < |trail| {
      ClimbsSplit(f, id, trail[n], y, n, n);
    } else {
      ClimbsSplit(f, id, cur, y, |trail|, n);
      if cur in f {
        var j :| 0 <= j < |trail| && trail[j] == cur;
        ClimbsCompose(f, id, cur, y, j, n - |trail|);
        TrailIsWhole(f, id, trail, cur, y, j + n - |trail|);
      }
    }
  }

  function Ids(agents: seq<Agent>): seq<string> {
    seq(|agents|, i requires 0 <= i < |agents| => agents[i].id)
  }

  /** Levels of the visited (`far`) and queued (`near`) ids: one non-decreasing run whose
      queued part spans at most two levels. */
  ghost predicate Levels(far: seq<nat>, near: seq<nat>) {
    && Sorted(far) && Sorted(near)
    && (forall i, j :: 0 <= i < |far| && 0 <= j < |near| ==> far[i] <= near[j])
    && (forall i :: 0 <= i < |near| ==> near[i] <= near[0] + 1)
  }

  /** Ids sit at their level. A queued copy of an already visited root is the only stale entry. */
  ghost predicate Placed(f: Fleet, root: string, out: seq<string>, queue: seq<string>, far: seq<nat>, near: seq<nat>) {
    && |far| == |out| && |near| == |queue|
    && (forall i :: 0 <= i < |out| ==> Under(f, out[i], root) && AtDistance(f, out[i], root, far[i]))
    && (forall i :: 0 <= i < |queue| ==> Under(f, queue[i], root))
    && (forall i :: 0 <= i < |queue| ==> AtDistance(f, queue[i], root, near[i]) || (queue[i] == root && out != []))
    && (if out == [] then queue == [root] else out[0] == root)
  }

  /** Children of visited ids are visited or queued. */
  ghost predicate Frontier(f: Fleet, out: seq<string>, queue: seq<string>) {
    forall c :: c in f && f[c].parent in out ==> c in out || c in queue
  }

  /** The walk's loop invariant. */
  ghost predicate WalkState(f: Fleet, root: string, out: seq<string>, queue: seq<string>, far: seq<nat>, near: seq<nat>) {
    Distinct(out) && Levels(far, near) && Placed(f, root, out, queue, far, near) && Frontier(f, out, queue)
  }

  lemma WalkSkip(f: Fleet, root: string, out: seq<string>, queue: seq<string>, far: seq<nat>, near: seq<nat>)
    requires |queue| > 0 && queue[0] in out && WalkState(f, root, out, queue, far, near)
    ensures WalkState(f, root, out, queue[1..], far, near[1..])
  {
    assert forall c :: c in queue ==> c == queue[0] || c in queue[1..];
  }

  lemma LevelsVisit(far: seq<nat>, near: seq<nat>, n: nat)
    requires |near| > 0 && Levels(far, near)
    ensures Levels(far + [near[0]], near[1..] + seq(n, _ => near[0] + 1))
  {
  }

  lemma FrontierVisit(f: Fleet, out: seq<string>, queue: seq<string>, children: seq<Agent>)
    requires WellKeyed(f) && |queue| > 0 && Frontier(f, out, queue)
    requires forall a :: a in children <==> a.id in f && f[a.id] == a && a.parent == queue[0]
    ensures Frontier(f, out + [queue[0]], queue[1..] + Ids(children))
  {
    var queue' := queue[1..] + Ids(children);
    forall c | c in f && f[c].parent in out + [queue[0]] ensures c in out + [queue[0]] || c in queue' {
      if f[c].parent == queue[0] {
        assert f[c] in children;
        var i :| 0 <= i < |children| && children[i] == f[c];
        assert queue'[|queue| - 1 + i] == c;
      } else {
        assert c in queue ==> c == queue[0] || c in queue[1..];
      }
    }
  }

  lemma PlacedVisit(f: Fleet, root: string, out: seq<string>, queue: seq<string>, far: seq<nat>, near: seq<nat>, children: seq<Agent>)
    requires |queue| > 0 && queue[0] !in out && Placed(f, root, out, queue, far, near)
    requires forall a :: a in children <==> a.id in f && f[a.id] == a && a.parent == queue[0]
    ensures Placed(f, root, out + [queue[0]], queue[1..] + Ids(children), far + [near[0]],
                   near[1..] + seq(|children|, _ => near[0] + 1))
  {
    var cur, d := queue[0], near[0];
    assert AtDistance(f, cur, root, d);
    forall i | 0 <= i < |children|
      ensures Under(f, children[i].id, root)
      ensures AtDistance(f, children[i].id, root, d + 1) || children[i].id == root
    {
      var c := children[i];
      assert c in children;
      ChildIsUnder(f, c.id);
      UnderTransitive(f, c.id, cur, root);
      if c.id != root { DistanceBelow(f, c.id, root, d); }
    }
  }

  lemma WalkVisit(f: Fleet, root: string, out: seq<string>, queue: seq<string>, far: seq<nat>, near: seq<nat>, children: seq<Agent>)
    requires WellKeyed(f) && |queue| > 0 && queue[0] !in out && WalkState(f, root, out, queue, far, near)
    requires forall a :: a in children <==> a.id in f && f[a.id] == a && a.parent == queue[0]
    ensures WalkState(f, root, out + [queue[0]], queue[1..] + Ids(children), far + [near[0]],
                      near[1..] + seq(|children|, _ => near[0] + 1))
  {
    LevelsVisit(far, near, |children|);
    FrontierVisit(f, out, queue, children);
    PlacedVisit(f, root, out, queue, far, near, children);
  }

  lemma WalkDone(f: Fleet, root: string, out: seq<string>, far: seq<nat>, near: seq<nat>)
    requires WalkState(f, root, out, [], far, near)
    ensures IsSubtree(f, root, out)
  {
    var s := set x | x in out;
    forall x | Under(f, x, root) ensures x in out {
      var n: nat :| Climbs(f, x, root, n);
      ClosedUnderChildren(f, s, root, x, n);
    }
    forall i, j, m: nat, n: nat |
      0 <= i < j < |out| && AtDistance(f, out[i], root, m) && AtDistance(f, out[j], root, n)
      ensures m <= n
    {
      DistanceUnique(f, out[i], root, m, far[i]);
      DistanceUnique(f, out[j], root, n, far[j]);
    }
  }

  class Store {
    var fleet: Fleet
    var enabled: set<string>
    var owners: set<(string, string)>

    ghost predicate Valid()
      reads this
    {
      WellKeyed(fleet)
    }

    ghost function View(): Authority
      reads this
    {
      Authority(fleet, enabled)
    }

    constructor ()
      ensures Valid() && View() == Authority(map[], {}) && owners == {}
    {
      fleet, enabled, owners := map[], {}, {};
    }

    /** Dismissed records are never listed. */
    method ListAgents() returns (out: seq<Agent>)
      requires Valid()
      ensures Lists(fleet, a => true, out)
    {
      out := [];
      var todo := fleet.Keys;
      while todo != {}
        invariant todo <= fleet.Keys
        invariant forall a :: a in out <==> a.id in fleet.Keys - todo && fleet[a.id] == a && !a.dismissed
        decreases |todo|
      {
        var k :| k in todo;
        todo := todo - {k};
        if !fleet[k].dismissed { out := out + [fleet[k]]; }
      }
    }

    method ListChildren(parent: string) returns (out: seq<Agent>)
      requires Valid()
      ensures forall a :: a in out <==> a.id in fleet && fleet[a.id] == a && a.parent == parent
      ensures Distinct(out)
    {
      out := [];
      var todo := fleet.Keys;
      while todo != {}
        invariant todo <= fleet.Keys
        invariant forall a :: a in out <==> a.id in fleet.Keys - todo && fleet[a.id] == a && a.parent == parent
        invariant Distinct(out)
        decreases |todo|
      {
        var k :| k in todo;
        todo := todo - {k};
        if fleet[k].parent == parent {
          assert fleet[k] !in out;
          out := out + [fleet[k]];
        }
      }
    }

    static method Enqueue(queue: seq<string>, children: seq<Agent>) returns (q: seq<string>)
      ensures q == queue + Ids(children)
    {
      q := queue;
      for i := 0 to |children|
        invariant q == queue + Ids(children[..i])
      {
        assert Ids(children[..i + 1]) == Ids(children[..i]) + [children[i].id];
        q := q + [children[i].id];
      }
      assert children[..|children|] == children;
    }

    /** Breadth-first walk with a cycle guard. A read error abandons the walk. */
    method Subtree(id: string, o: Outage) returns (ok: bool, out: seq<string>)
      requires Valid()
      ensures ok <==> id !in o.gets && (id in fleet ==> forall x :: Under(fleet, x, id) ==> x !in o.lists)
      ensures !ok || id !in fleet ==> out == []
      ensures ok && id in fleet ==> IsSubtree(fleet, id, out)
    {
      if id in o.gets { return false, []; }
      if id !in fleet { return true, []; }
      ok, out := Walk(id, o.lists);
    }

    method Walk(id: string, unlisted: set<string>) returns (ok: bool, out: seq<string>)
      requires Valid() && id in fleet
      ensures ok <==> forall x :: Under(fleet, x, id) ==> x !in unlisted
      ensures if ok then IsSubtree(fleet, id, out) else out == []
    {
      out := [];
      var seen: set<string> := {};
      var queue := [id];
      ghost var far, near: seq<nat> := [], [0];
      assert Climbs(fleet, id, id, 0);
      while |queue| > 0
        invariant seen <= fleet.Keys && seen !! unlisted && forall x :: x in seen <==> x in out
        invariant WalkState(fleet, id, out, queue, far, near)
        decreases fleet.Keys - seen, |queue|
      {
        ghost var before := queue;
        var cur := queue[0];
        queue := queue[1..];
        if cur in seen {
          WalkSkip(fleet, id, out, before, far, near);
          near := near[1..];
          continue;
        }
        if cur in unlisted {
          assert Under(fleet, cur, id);
          return false, [];
        }
        seen := seen + {cur};
        var children := ListChildren(cur);
        WalkVisit(fleet, id, out, before, far, near, children);
        queue := Enqueue(queue, children);
        out, far, near := out + [cur], far + [near[0]], near[1..] + seq(|children|, _ => near[0] + 1);
      }
      WalkDone(fleet, id, out, far, near);
      ok := true;
    }

    /** Lineage length from `id` to its root; a cycle guard stops the walk, and so does a read
        error on any hop. */
    method Depth(id: string, o: Outage) returns (ok: bool, d: nat)
      requires Valid()
      ensures ok <==> forall y :: y != "" && Leads(fleet, id, y) ==> y !in o.gets
      ensures ok ==> d == |Ancestors(fleet, id)|
    {
      d := 0;
      var seen: set<string> := {};
      var cur := id;
      ghost var trail: seq<string> := [];
      while cur != "" && cur !in seen
        invariant Trail(fleet, id, trail, cur)
        invariant seen <= fleet.Keys && seen !! o.gets && d == |seen| && forall x :: x in seen <==> x in trail
        decreases fleet.Keys - seen
      {
        if cur in o.gets {
          assert Leads(fleet, id, cur);
          return false, 0;
        }
        if cur !in fleet { break; }
        seen := seen + {cur};
        d := d + 1;
        TrailGrows(fleet, id, trail, cur);
        trail := trail + [cur];
        cur := fleet[cur].parent;
      }
      TrailIsAll(fleet, id, trail, cur);
      assert forall y :: y in seen ==> exists i: nat :: i < |trail| && trail[i] == y && Climbs(fleet, id, y, i);
      assert Ancestors(fleet, id) == seen;
      ok := true;
    }

    method RevokeNode(id: string, o: Outage) returns (ok: bool, revoked: bool)
      requires Valid()
      modifies this`fleet, this`enabled
      ensures Valid()
      ensures View() == if ok then RevokeBut(old(View()), {id}, o.tuples) else old(View())
      ensures revoked == (ok && Hit(old(fleet), {id}, id))
      ensures ok <==> id !in o.gets && !(Hit(old(fleet), {id}, id) && id in o.writes)
    {
      ghost var before := View();
      if id in o.gets { return false, false; }
      if id !in fleet || !Revocable(fleet[id].status) {
        assert RevokeBut(before, {id}, o.tuples).fleet == fleet && RevokeBut(before, {id}, o.tuples).enabled == enabled;
        return true, false;
      }
      if id in o.writes { return false, false; }
      fleet := fleet[id := fleet[id].(status := Revoked)];
      if id !in o.tuples { enabled := enabled - {id}; }
      assert RevokeBut(before, {id}, o.tuples).fleet == fleet && RevokeBut(before, {id}, o.tuples).enabled == enabled;
      return true, true;
    }

    method ResumeNode(id: string, o: Outage) returns (ok: bool, resumed: bool)
      requires Valid()
      modifies this`fleet, this`enabled
      ensures Valid()
      ensures View() == if ok then ResumeBut(old(View()), {id}, o.tuples) else old(View())
      ensures resumed == (ok && Resumable(old(fleet), {id}, id))
      ensures ok <==> id !in o.gets && !(Resumable(old(fleet), {id}, id) && id in o.writes)
    {
      ghost var before := View();
      if id in o.gets { return false, false; }
      resumed := id in fleet && fleet[id].status == Revoked;
      if resumed {
        if id in o.writes { return false, false; }
        fleet := fleet[id := fleet[id].(status := Active)];
        if id !in o.tuples { enabled := enabled + {id}; }
      }
      assert ResumeBut(before, {id}, o.tuples).fleet == fleet && ResumeBut(before, {id}, o.tuples).enabled == enabled;
      ok := true;
    }

    /** Revokes the given nodes in order, stopping at the first store error. */
    method RevokeNodes(nodes: seq<string>, o: Outage)
      returns (ok: bool, revoked: seq<string>, ghost done: set<string>)
      requires Valid() && forall x :: x in nodes ==> x !in o.lists
      modifies this`fleet, this`enabled
      ensures Valid() && View() == RevokeBut(old(View()), done, o.tuples)
      ensures if ok then done == Elements(nodes) else done < Elements(nodes)
      ensures ok <==> forall x :: x in nodes ==> Clear(old(fleet), x, o)
      ensures forall x :: x in revoked <==> Hit(old(fleet), done, x)
    {
      ok, revoked, done := true, [], {};
      ghost var f := fleet;
      RevokeNothing(View(), o.tuples);
      for i := 0 to |nodes|
        invariant Valid() && done == Elements(nodes[..i]) && View() == RevokeBut(old(View()), done, o.tuples)
        invariant forall x :: x in done ==> Clear(f, x, o)
        invariant forall x :: x in revoked <==> Hit(f, done, x)
      {
        var id := nodes[i];
        ghost var was := done;
        assert Elements(nodes[..i + 1]) == Elements(nodes[..i]) + {id};
        assert Elements(nodes[..i]) <= Elements(nodes);
        var flipped;
        ok, flipped := RevokeNode(id, o);
        if !ok {
          assert id !in was && id in Elements(nodes);
          return;
        }
        RevokeCompose(old(View()), was, {id}, o.tuples);
        done := was + {id};
        if flipped { revoked := revoked + [id]; }
      }
      assert nodes[..|nodes|] == nodes;
    }

    method ResumeNodes(nodes: seq<string>, o: Outage)
      returns (ok: bool, resumed: seq<string>, ghost done: set<string>)
      requires Valid() && forall x :: x in nodes ==> x !in o.lists
      modifies this`fleet, this`enabled
      ensures Valid() && View() == ResumeBut(old(View()), done, o.tuples)
      ensures if ok then done == Elements(nodes) else done < Elements(nodes)
      ensures ok <==> forall x :: x in nodes ==> ClearToResume(old(fleet), x, o)
      ensures forall x :: x in resumed <==> Resumable(old(fleet), done, x)
    {
      ok, resumed, done := true, [], {};
      ghost var f := fleet;
      RevokeNothing(View(), o.tuples);
      for i := 0 to |nodes|
        invariant Valid() && done == Elements(nodes[..i]) && View() == ResumeBut(old(View()), done, o.tuples)
        invariant forall x :: x in done ==> ClearToResume(f, x, o)
        invariant forall x :: x in resumed <==> Resumable(f, done, x)
      {
        var id := nodes[i];
        ghost var was := done;
        assert Elements(nodes[..i + 1]) == Elements(nodes[..i]) + {id};
        assert Elements(nodes[..i]) <= Elements(nodes);
        var flipped;
        ok, flipped := ResumeNode(id, o);
        if !ok {
          assert id !in was && id in Elements(nodes);
          return;
        }
        ResumeCompose(old(View()), was, {id}, o.tuples);
        done := was + {id};
        if flipped { resumed := resumed + [id]; }
      }
      assert nodes[..|nodes|] == nodes;
    }

    /** POST /v1/agents/{id}/revoke. */
    method RevokeSubtree(id: string, o: Outage) returns (r: Reply)
      requires Valid()
      modifies this`fleet, this`enabled
      ensures Valid() && !r.Refused?
      ensures r.Failure? <==> id in o.gets || (id in old(fleet) && exists x :: Under(old(fleet), x, id) && !Clear(old(fleet), x, o))
      ensures r.NotFound? <==> id !in o.gets && id !in old(fleet)
      ensures r.NotFound? ==> View() == old(View())
      ensures r.Done? ==>
                && View() == RevokeBut(old(View()), Descendants(old(fleet), id), o.tuples)
                && forall x :: x in r.ids <==> Hit(old(fleet), Descendants(old(fleet), id), x)
      ensures r.Failure? ==> PartlyRevoked(old(View()), View(), id, o)
    {
      ghost var all := Descendants(fleet, id);
      RevokeNothing(View(), o.tuples);
      if id in fleet { SelfUnder(fleet, id); }
      assert PartOf(fleet, {}, id);
      var read, nodes := Subtree(id, o);
      if !read { return Failure; }
      if nodes == [] { return NotFound; }
      assert Elements(nodes) == all;
      assert forall x :: x in nodes ==> x !in o.lists;
      ghost var done;
      var ok, revoked;
      ok, revoked, done := RevokeNodes(nodes, o);
      r := if ok then Done(revoked) else Failure;
    }

    /** POST /v1/agents/{id}/resume: refused while the named agent's org is suspended. `lookup` is
        whether the org can be looked up. */
    method ResumeSubtree(id: string, suspended: set<string>, lookup: bool, o: Outage) returns (r: Reply)
      requires Valid()
      modifies this`fleet, this`enabled
      ensures Valid()
      ensures r.Refused? <==> id !in o.gets && id in old(fleet) && lookup && old(fleet)[id].org in suspended
      ensures r.NotFound? <==> id !in o.gets && id !in old(fleet)
      ensures r.Failure? <==>
                id in o.gets || (id in old(fleet) && !lookup)
                || (id in old(fleet) && !r.Refused? && exists x :: Under(old(fleet), x, id) && !ClearToResume(old(fleet), x, o))
      ensures r.NotFound? || r.Refused? ==> View() == old(View())
      ensures r.Done? ==>
                && View() == ResumeBut(old(View()), Descendants(old(fleet), id), o.tuples)
                && forall x :: x in r.ids <==> Resumable(old(fleet), Descendants(old(fleet), id), x)
      ensures r.Failure? ==> PartlyResumed(old(View()), View(), id, o)
    {
      ghost var all := Descendants(fleet, id);
      RevokeNothing(View(), o.tuples);
      if id in fleet { SelfUnder(fleet, id); }
      assert PartOf(fleet, {}, id);
      if id in o.gets { return Failure; }
      if id !in fleet { return NotFound; }
      if !lookup { return Failure; }
      if fleet[id].org in suspended { return Refused; }
      var read, nodes := Subtree(id, o);
      if !read { return Failure; }
      assert Elements(nodes) == all;
      assert forall x :: x in nodes ==> x !in o.lists;
      ghost var done;
      var ok, resumed;
      ok, resumed, done := ResumeNodes(nodes, o);
      r := if ok then Done(resumed) else Failure;
    }

    /** Revokes the subtree of every started root. A store error aborts the cascade. */
    method CascadeOverRoots(roots: seq<Agent>, scopeSet: set<string>, o: Outage)
      returns (ok: bool, ghost done: set<string>)
      requires Valid() && forall r :: r in roots ==> r.id in fleet
      modifies this`fleet, this`enabled
      ensures Valid() && View() == RevokeBut(old(View()), done, o.tuples)
      ensures if ok then done == Covered(old(fleet), roots, scopeSet) else done <= Covered(old(fleet), roots, scopeSet)
      ensures ok <==> AllClear(old(fleet), Covered(old(fleet), roots, scopeSet), o)
    {
      ok, done := true, {};
      ghost var f := fleet;
      RevokeNothing(View(), o.tuples);
      for i := 0 to |roots|
        invariant Valid() && done == Covered(f, roots[..i], scopeSet) && View() == RevokeBut(old(View()), done, o.tuples)
        invariant AllClear(f, done, o)
      {
        var a := roots[i];
        CoveredGrows(f, roots, scopeSet, i);
        if a.parent != "" && a.parent in scopeSet { continue; }
        RevokeKeepsEdges(old(View()), done, o.tuples);
        SameDescendants(f, fleet, a.id);
        ghost var part;
        ok, part := RevokeBelow(a.id, o);
        RevokeCompose(old(View()), done, part, o.tuples);
        StillClear(old(View()), done, Descendants(f, a.id), o);
        done := done + part;
        if !ok { return; }
      }
      assert roots[..|roots|] == roots;
    }

    /** The inner part of the cascade: read one subtree and revoke it. */
    method RevokeBelow(id: string, o: Outage) returns (ok: bool, ghost done: set<string>)
      requires Valid() && id in fleet
      modifies this`fleet, this`enabled
      ensures Valid() && View() == RevokeBut(old(View()), done, o.tuples)
      ensures if ok then done == Descendants(old(fleet), id) else done <= Descendants(old(fleet), id)
      ensures ok <==> AllClear(old(fleet), Descendants(old(fleet), id), o)
    {
      SelfUnder(fleet, id);
      RevokeNothing(View(), o.tuples);
      var nodes;
      ok, nodes := Subtree(id, o);
      UnreadIsNotClear(fleet, id, o);
      if !ok { return false, {}; }
      assert Elements(nodes) == Descendants(fleet, id);
      var revoked;
      ok, revoked, done := RevokeNodes(nodes, o);
    }

    method RevokeCascadeRoots(scope: Agent -> bool, root: Agent -> bool, o: Outage)
      returns (ok: bool, ghost done: set<string>)
      requires Valid()
      modifies this`fleet, this`enabled
      ensures Valid() && View() == RevokeBut(old(View()), done, o.tuples)
      ensures if ok then done == CascadeSet(old(fleet), scope, root) else done <= CascadeSet(old(fleet), scope, root)
      ensures ok <==> !o.listing && AllClear(old(fleet), CascadeSet(old(fleet), scope, root), o)
    {
      RevokeNothing(View(), o.tuples);
      if o.listing { return false, {}; }
      var agents := ListAgents();
      var scopeSet: set<string> := {};
      var roots: seq<Agent> := [];
      for i := 0 to |agents|
        invariant scopeSet == set k | k in Selected(fleet, scope) && fleet[k] in agents[..i]
      {
        assert agents[i] in agents;
        if scope(agents[i]) { scopeSet := scopeSet + {agents[i].id}; }
      }
      for i := 0 to |agents|
        invariant forall a :: a in roots <==> a in agents[..i] && root(a)
      {
        if root(agents[i]) { roots := roots + [agents[i]]; }
      }
      assert agents[..|agents|] == agents;
      assert scopeSet == Selected(fleet, scope);
      CoveredIsCascadeSet(fleet, scope, root, roots);
      ok, done := CascadeOverRoots(roots, scopeSet, o);
    }

    /** The agent half of an org suspension: scope and root are both "in this org". */
    method SuspendOrgAgents(org: string, o: Outage) returns (ok: bool, ghost done: set<string>)
      requires Valid()
      modifies this`fleet, this`enabled
      ensures Valid() && View() == RevokeBut(old(View()), done, o.tuples)
      ensures if ok then done == CascadeSet(old(fleet), InOrg(org), InOrg(org)) else done <= CascadeSet(old(fleet), InOrg(org), InOrg(org))
      ensures ok <==> !o.listing && AllClear(old(fleet), CascadeSet(old(fleet), InOrg(org), InOrg(org)), o)
      ensures OnlyBelow(old(View()), View(), AgentsOfOrg(old(fleet), org))
      ensures ok && Acyclic(old(fleet)) ==> AllRevoked(old(View()), View(), AgentsOfOrg(old(fleet), org), o.tuples)
    {
      ghost var a := View();
      ok, done := RevokeCascadeRoots(InOrg(org), InOrg(org), o);
      SelectionsMean(a.fleet, org, "");
      SameScopeIsClosed(a.fleet, InOrg(org));
      CascadeStaysBelow(a, InOrg(org), InOrg(org), done, o.tuples);
      if Acyclic(a.fleet) { CascadeRevokesAll(a, InOrg(org), InOrg(org), o.tuples); }
    }

    /** The user-delete form: only org-less agents start a cascade, but the parent skip
        still looks at everything the user owns. */
    method RevokeOrglessRoots(user: string, o: Outage) returns (ok: bool, ghost done: set<string>)
      requires Valid()
      modifies this`fleet, this`enabled
      ensures Valid() && View() == RevokeBut(old(View()), done, o.tuples)
      ensures if ok then done == CascadeSet(old(fleet), OwnedBy(user), OrglessOwnedBy(user))
              else done <= CascadeSet(old(fleet), OwnedBy(user), OrglessOwnedBy(user))
      ensures ok <==> !o.listing && AllClear(old(fleet), CascadeSet(old(fleet), OwnedBy(user), OrglessOwnedBy(user)), o)
      ensures OnlyBelow(old(View()), View(), OrglessOfUser(old(fleet), user))
      ensures ok && Acyclic(old(fleet)) && OrgInherited(old(fleet)) ==>
                AllRevoked(old(View()), View(), OrglessOfUser(old(fleet), user), o.tuples)
    {
      ghost var a := View();
      ok, done := RevokeCascadeRoots(OwnedBy(user), OrglessOwnedBy(user), o);
      SelectionsMean(a.fleet, "", user);
      CascadeStaysBelow(a, OwnedBy(user), OrglessOwnedBy(user), done, o.tuples);
      if Acyclic(a.fleet) && OrgInherited(a.fleet) {
        OrglessDeleteIsClosed(a.fleet, user);
        CascadeRevokesAll(a, OwnedBy(user), OrglessOwnedBy(user), o.tuples);
      }
    }

    /** Removes the user's `owner` tuple from each of the given agents; a failed delete is passed
        over. */
    method EndOwnership(owned: seq<Agent>, user: string, stuck: set<string>)
      modifies this`owners
      ensures owners == old(owners) - (set a | a in owned && a.id !in stuck :: (a.id, user))
    {
      for i := 0 to |owned|
        invariant owners == old(owners) - (set a | a in owned[..i] && a.id !in stuck :: (a.id, user))
      {
        assert owned[..i + 1] == owned[..i] + [owned[i]];
        if owned[i].id !in stuck { owners := owners - {(owned[i].id, user)}; }
      }
      assert owned[..|owned|] == owned;
    }

    /** Settles a removed member's agents: ownership always ends, authority only under
        the auto-revoke setting. */
    method ApplyRemovalDisposition(org: string, user: string, autoRevoke: bool, o: Outage) returns (ok: bool, ghost done: set<string>)
      requires Valid()
      modifies this
      ensures Valid() && View() == RevokeBut(old(View()), done, o.tuples)
      ensures owners == old(owners) - (set k | k in AgentsOfMember(old(fleet), org, user) && !o.listing && k !in o.owners :: (k, user))
      ensures !autoRevoke ==> done == {} && ok == !o.listing
      ensures autoRevoke && ok ==> done == CascadeSet(old(fleet), MemberAgent(org, user), MemberAgent(org, user))
      ensures autoRevoke ==> (ok <==> !o.listing && AllClear(old(fleet), CascadeSet(old(fleet), MemberAgent(org, user), MemberAgent(org, user)), o))
      ensures OnlyBelow(old(View()), View(), AgentsOfMember(old(fleet), org, user))
      ensures autoRevoke && ok && Acyclic(old(fleet)) ==> AllRevoked(old(View()), View(), AgentsOfMember(old(fleet), org, user), o.tuples)
    {
      ghost var a, p := View(), MemberAgent(org, user);
      SelectionsMean(a.fleet, org, user);
      RevokeNothing(a, o.tuples);
      ok, done := !o.listing, {};
      if !o.listing { ok, done := SettleOwned(org, user, autoRevoke, o); }
      CascadeStaysBelow(a, p, p, done, o.tuples);
      SameScopeIsClosed(a.fleet, p);
      if Acyclic(a.fleet) { CascadeRevokesAll(a, p, p, o.tuples); }
    }

    method SettleOwned(org: string, user: string, autoRevoke: bool, o: Outage) returns (ok: bool, ghost done: set<string>)
      requires Valid()
      modifies this
      ensures Valid() && View() == RevokeBut(old(View()), done, o.tuples)
      ensures owners == old(owners) - (set k | k in Selected(old(fleet), MemberAgent(org, user)) && k !in o.owners :: (k, user))
      ensures !autoRevoke ==> done == {} && ok
      ensures autoRevoke && ok ==> done == CascadeSet(old(fleet), MemberAgent(org, user), MemberAgent(org, user))
      ensures done <= CascadeSet(old(fleet), MemberAgent(org, user), MemberAgent(org, user))
      ensures autoRevoke ==> (ok <==> AllClear(old(fleet), CascadeSet(old(fleet), MemberAgent(org, user), MemberAgent(org, user)), o))
    {
      RevokeNothing(View(), o.tuples);
      ok, done := true, {};
      var p := MemberAgent(org, user);
      var agents := ListAgents();
      var owned: seq<Agent> := [];
      var ownedSet: set<string> := {};
      for i := 0 to |agents|
        invariant forall a :: a in owned <==> a in agents[..i] && p(a)
        invariant ownedSet == set k | k in Selected(fleet, p) && fleet[k] in agents[..i]
      {
        assert agents[i] in agents;
        if p(agents[i]) { owned, ownedSet := owned + [agents[i]], ownedSet + {agents[i].id}; }
      }
      assert agents[..|agents|] == agents;
      assert ownedSet == Selected(fleet, p);
      if owned == [] {
        assert Selected(fleet, p) == {};
        return;
      }
      EndOwnership(owned, user, o.owners);
      assert (set a | a in owned && a.id !in o.owners :: (a.id, user)) == set k | k in Selected(fleet, p) && k !in o.owners :: (k, user);
      CoveredIsCascadeSet(fleet, p, p, owned);
      if autoRevoke { ok, done := CascadeOverRoots(owned, ownedSet, o); }
    }
  }
}
