/** Whole runs of the registry as the orchestrator and the sidecars drive it: what stays
    true of the lineage however spawns, registrations and status changes interleave. Requests
    check first and act later, so each is several steps and anything may happen in between: a child
    spawn is admitted against the parent's record, a preregistration checks the org and then stores,
    a self-registration reads the record, checks the org and writes, and a resume checks the org,
    lists the subtree and then resumes node by node. */
module LineageRuns {
  import opened Common
  import opened Lineage
  import opened Revocation
  import Cascade

  /** What an admitted child spawn remembers until it preregisters. */
  datatype Ticket = Ticket(parent: string, tenant: string, org: string, maxDepth: nat)

  /** A preregistration whose org check has passed. */
  datatype Pre = Pre(rec: Agent, maxDepth: nat)

  /** A self-registration under way: what it read, and whether the org check has passed. */
  datatype Registration = Registration(id: string, seen: Option<Agent>, cleared: bool) {
    function Org(): string {
      if seen.Some? then seen.value.org else ""
    }
  }

  /** A resume whose org check has passed, and later the nodes still to resume. */
  datatype Resuming = Guarded(root: string) | Listed(root: string, nodes: set<string>)

  /** Requests between their parts, by thread. */
  datatype Requests = Requests(
    tickets: map<nat, Ticket>, pres: map<nat, Pre>, regs: map<nat, Registration>, resumes: map<nat, Resuming>)

  /** `cap` is history: the depth limit each child was admitted under (0 is no limit). */
  datatype World = World(auth: Authority, suspended: set<string>, reqs: Requests, cap: map<string, nat>)

  datatype Step =
    | PreGuard(thread: nat, id: string, agentType: string, tenant: string, user: string, org: string, placement: Placement)
    | Admit(thread: nat, parent: string, allowed: bool, maxDepth: nat)
    | ChildGuard(thread: nat, id: string, agentType: string, user: string, placement: Placement)
    | PreStore(thread: nat)
    | RegRead(thread: nat, id: string)
    | RegGuard(thread: nat)
    | RegWrite(thread: nat, agentType: string, tenant: string, user: string, bodyParent: string)
    | Patch(id: string, status: Status)
    | RevokeNodes(ids: set<string>)
    | ResumeGuard(thread: nat, root: string)
    | ResumeList(thread: nat)
    | ResumeNode(thread: nat, id: string)
    | Dismiss(id: string)
    | SetSuspended(orgs: set<string>)

  function Put(w: World, a: Agent): World {
    w.(auth := w.auth.(fleet := w.auth.fleet[a.id := a]))
  }

  function Enable(w: World, id: string): World {
    w.(auth := w.auth.(enabled := w.auth.enabled + {id}))
  }

  predicate Writes(w: World, t: nat) {
    t in w.reqs.regs && w.reqs.regs[t].cleared
  }

  /** The record a registration stores: lineage, owner, org and placement as it read them, and for
      an id it read as unknown, parent and owner from the request. */
  function Written(r: Registration, agentType: string, tenant: string, user: string, bodyParent: string): Agent {
    if r.seen.Some? then
      var e := r.seen.value;
      Agent(r.id, agentType, tenant, e.user, Active, false, e.parent, e.org, e.placement)
    else Agent(r.id, agentType, tenant, user, Active, false, bodyParent, "", Kubernetes)
  }

  predicate Resumes(w: World, t: nat, id: string) {
    t in w.reqs.resumes && w.reqs.resumes[t].Listed? && id in w.reqs.resumes[t].nodes
  }

  /** Steps that only move a request along. */
  ghost function Advance(w: World, s: Step): Requests {
    var f, q := w.auth.fleet, w.reqs;
    match s
    case PreGuard(t, id, ty, te, us, org, pl) =>
      if org in w.suspended then q else q.(pres := q.pres[t := Pre(Agent(id, ty, te, us, Pending, false, "", org, pl), 0)])
    case Admit(t, p, allowed, maxDepth) =>
      if p in f && allowed && (maxDepth == 0 || |Ancestors(f, p)| + 1 <= maxDepth)
      then q.(tickets := q.tickets[t := Ticket(p, f[p].tenant, f[p].org, maxDepth)])
      else q
    case ChildGuard(t, id, ty, us, pl) =>
      if t !in q.tickets || q.tickets[t].org in w.suspended then q
      else
        var k := q.tickets[t];
        q.(tickets := q.tickets - {t}, pres := q.pres[t := Pre(Agent(id, ty, k.tenant, us, Pending, false, k.parent, k.org, pl), k.maxDepth)])
    case RegRead(t, id) =>
      if id in f && (f[id].status.Completed? || f[id].status.Failed? || f[id].status.Revoked?) then q
      else q.(regs := q.regs[t := Registration(id, if id in f then Some(f[id]) else None, false)])
    case RegGuard(t) =>
      if t !in q.regs then q
      else if q.regs[t].Org() in w.suspended then q.(regs := q.regs - {t})
      else q.(regs := q.regs[t := q.regs[t].(cleared := true)])
    case ResumeGuard(t, root) =>
      if root !in f || f[root].org in w.suspended then q else q.(resumes := q.resumes[t := Guarded(root)])
    case ResumeList(t) =>
      if t !in q.resumes || !q.resumes[t].Guarded? then q
      else q.(resumes := q.resumes[t := Listed(q.resumes[t].root, Cascade.Descendants(f, q.resumes[t].root))])
    case _ => q
  }

  function Patched(w: World, id: string, st: Status): World
    requires id in w.auth.fleet
  {
    var v := Put(w, w.auth.fleet[id].(status := st));
    if st.Completed? || st.Failed? then v.(auth := v.auth.(enabled := v.auth.enabled - {id})) else v
  }

  function ResumedNode(w: World, t: nat, id: string): World
    requires Resumes(w, t, id)
  {
    var r := w.reqs.resumes[t];
    w.(auth := ResumeAll(w.auth, {id}), reqs := w.reqs.(resumes := w.reqs.resumes[t := Listed(r.root, r.nodes - {id})]))
  }

  ghost function Apply(w: World, s: Step): World {
    var f, q := w.auth.fleet, w.reqs;
    match s
    case PreStore(t) =>
      if t !in q.pres then w
      else
        var p := q.pres[t];
        Put(w, p.rec).(reqs := q.(pres := q.pres - {t}), cap := if p.rec.parent == "" then w.cap else w.cap[p.rec.id := p.maxDepth])
    case RegWrite(t, ty, te, us, bp) =>
      if !Writes(w, t) then w
      else
        var a := Written(q.regs[t], ty, te, us, bp);
        Enable(Put(w, a), a.id).(reqs := q.(regs := q.regs - {t}))
    case Patch(id, st) => if id in f then Patched(w, id, st) else w
    case RevokeNodes(ids) => w.(auth := RevokeAll(w.auth, ids))
    case ResumeNode(t, id) => if Resumes(w, t, id) then ResumedNode(w, t, id) else w
    case Dismiss(id) => if id in f then Put(w, f[id].(dismissed := true)) else w
    case SetSuspended(orgs) => w.(suspended := orgs)
    case _ => w.(reqs := Advance(w, s))
  }

  /** Requests use their own thread, and an id minted for a spawn is fresh when it is stored. */
  ghost predicate Legal(w: World, s: Step) {
    match s
    case PreGuard(t, id, _, _, _, _, _) => id != "" && t !in w.reqs.pres
    case ChildGuard(t, id, _, _, _) => id != "" && t !in w.reqs.pres
    case PreStore(t) => t in w.reqs.pres ==> w.reqs.pres[t].rec.id !in w.auth.fleet
    case RegRead(t, id) => id != "" && t !in w.reqs.regs
    case ResumeGuard(t, _) => t !in w.reqs.resumes
    case _ => true
  }

  ghost function Exec(w: World, steps: seq<Step>): World
    decreases |steps|
  {
    if steps == [] then w else Exec(Apply(w, steps[0]), steps[1..])
  }

  ghost predicate LegalRun(w: World, steps: seq<Step>)
    decreases |steps|
  {
    steps != [] ==> Legal(w, steps[0]) && LegalRun(Apply(w, steps[0]), steps[1..])
  }

  ghost predicate RootedParents(f: Fleet) {
    forall k :: k in f ==> f[k].parent == "" || f[k].parent in f
  }

  /** A child admitted under a limit sits within it. */
  ghost predicate WithinCap(f: Fleet, cap: map<string, nat>) {
    forall k :: k in cap ==> k in f && (cap[k] > 0 ==> |Ancestors(f, k)| <= cap[k])
  }

  predicate Agrees(a: Agent, b: Agent) {
    a.parent == b.parent && a.user == b.user && a.org == b.org && a.placement == b.placement
  }

  /** A child of this parent carries this org and may sit this deep. */
  ghost predicate Fits(f: Fleet, parent: string, org: string, maxDepth: nat) {
    parent in f && f[parent].org == org && (maxDepth > 0 ==> |Ancestors(f, parent)| + 1 <= maxDepth)
  }

  ghost predicate TicketsHold(f: Fleet, q: Requests) {
    forall t :: t in q.tickets ==> Fits(f, q.tickets[t].parent, q.tickets[t].org, q.tickets[t].maxDepth)
  }

  ghost predicate PresHold(f: Fleet, q: Requests) {
    forall t :: t in q.pres ==>
      var a := q.pres[t].rec;
      a.id != "" && (a.parent == "" || Fits(f, a.parent, a.org, q.pres[t].maxDepth))
  }

  /** What a registration read of a record is still what the record says. */
  ghost predicate RegsHold(f: Fleet, q: Requests) {
    forall t :: t in q.regs ==>
      q.regs[t].id != "" && (q.regs[t].seen.Some? ==> q.regs[t].id in f && Agrees(q.regs[t].seen.value, f[q.regs[t].id]))
  }

  /** A resume is of a stored agent, and of nodes in that agent's org. */
  ghost predicate ResumesHold(f: Fleet, q: Requests) {
    forall t :: t in q.resumes ==>
      && q.resumes[t].root in f
      && (q.resumes[t].Listed? ==> forall k :: k in q.resumes[t].nodes ==> k in f && f[k].org == f[q.resumes[t].root].org)
  }

  ghost predicate RequestsHold(f: Fleet, q: Requests) {
    TicketsHold(f, q) && PresHold(f, q) && RegsHold(f, q) && ResumesHold(f, q)
  }

  ghost predicate Forest(f: Fleet) {
    WellKeyed(f) && RootedParents(f) && Acyclic(f) && Cascade.OrgInherited(f)
  }

  ghost predicate Inv(w: World) {
    Forest(w.auth.fleet) && WithinCap(w.auth.fleet, w.cap) && RequestsHold(w.auth.fleet, w.reqs) && w.auth.enabled <= w.auth.fleet.Keys
  }

  /** Records stay, with their lineage and ownership fields and their ancestors frozen. */
  ghost predicate FleetKept(f: Fleet, g: Fleet) {
    forall k :: k in f ==> k in g && Agrees(g[k], f[k]) && Ancestors(g, k) == Ancestors(f, k)
  }

  /** No record disappears, its lineage and ownership fields are frozen, its depth is
      frozen, and the limit it was admitted under is not forgotten. */
  ghost predicate Kept(w: World, v: World) {
    && FleetKept(w.auth.fleet, v.auth.fleet)
    && (forall k :: k in w.cap ==> k in v.cap && v.cap[k] == w.cap[k])
  }

  /** Adding one fresh record, or changing none, leaves every existing climb as it was. */
  lemma {:induction false} ClimbExtends(f: Fleet, g: Fleet, x: string, y: string, n: nat)
    requires RootedParents(f) && x in f && "" !in g
    requires forall k :: k in f ==> k in g && g[k].parent == f[k].parent
    ensures Climbs(f, x, y, n) <==> Climbs(g, x, y, n)
    decreases n
  {
    if n > 0 {
      var p := f[x].parent;
      if p in f {
        ClimbExtends(f, g, p, y, n - 1);
      } else {
        assert n - 1 > 0 ==> !Climbs(f, p, y, n - 1) && !Climbs(g, p, y, n - 1);
      }
    }
  }

  lemma AncestorsExtend(f: Fleet, g: Fleet, x: string)
    requires RootedParents(f) && x in f && "" !in g
    requires forall k :: k in f ==> k in g && g[k].parent == f[k].parent
    ensures Ancestors(f, x) == Ancestors(g, x)
  {
    forall y ensures y in Ancestors(f, x) <==> y in Ancestors(g, x) {
      forall n: nat ensures Climbs(f, x, y, n) <==> Climbs(g, x, y, n) { ClimbExtends(f, g, x, y, n); }
      forall n: nat | Climbs(f, x, y, n) && y in g ensures y in f { ClimbStaysInside(f, x, y, n); }
    }
  }

  lemma {:induction false} ClimbStaysInside(f: Fleet, x: string, y: string, n: nat)
    requires RootedParents(f) && x in f && Climbs(f, x, y, n)
    ensures y in f || y == ""
    decreases n
  {
    if n > 0 && f[x].parent in f { ClimbStaysInside(f, f[x].parent, y, n - 1); }
  }

  lemma {:induction false} GroundedExtends(f: Fleet, g: Fleet, x: string, n: nat)
    requires RootedParents(f) && x in f && "" !in g && Grounded(f, x, n)
    requires forall k :: k in f ==> k in g && g[k].parent == f[k].parent
    ensures Grounded(g, x, n)
    decreases n
  {
    var p := f[x].parent;
    if p in f { GroundedExtends(f, g, p, n - 1); } else { assert n == 1; assert Grounded(g, p, 0); }
  }

  /** One more hop below an existing parent, or a new root. */
  lemma NewRecord(f: Fleet, a: Agent)
    requires WellKeyed(f) && RootedParents(f) && Acyclic(f) && a.id != "" && a.id !in f
    requires a.parent == "" || a.parent in f
    ensures var g := f[a.id := a];
            && WellKeyed(g) && RootedParents(g) && Acyclic(g)
            && (forall k :: k in f ==> Ancestors(g, k) == Ancestors(f, k))
            && |Ancestors(g, a.id)| == if a.parent == "" then 1 else |Ancestors(f, a.parent)| + 1
  {
    var g := f[a.id := a];
    forall k | k in f ensures Ancestors(g, k) == Ancestors(f, k) && exists n: nat :: Grounded(g, k, n) {
      AncestorsExtend(f, g, k);
      var n: nat :| Grounded(f, k, n);
      GroundedExtends(f, g, k, n);
    }
    var n: nat :| if a.parent == "" then n == 0 else Grounded(f, a.parent, n);
    if a.parent == "" {
      assert Grounded(g, "", 0);
    } else {
      GroundedExtends(f, g, a.parent, n);
      GroundedCountsAncestors(f, a.parent, n);
    }
    assert Grounded(g, a.id, n + 1);
    GroundedCountsAncestors(g, a.id, n + 1);
  }

  // What requests under way hold about existing records outlives any change that freezes them.

  lemma TicketsOutlive(f: Fleet, g: Fleet, q: Requests)
    requires TicketsHold(f, q) && PresHold(f, q) && FleetKept(f, g)
    ensures TicketsHold(g, q) && PresHold(g, q)
  {
  }

  lemma RegsOutlive(f: Fleet, g: Fleet, q: Requests)
    requires RegsHold(f, q) && ResumesHold(f, q) && FleetKept(f, g)
    ensures RegsHold(g, q) && ResumesHold(g, q)
  {
  }

  ghost predicate FewerRequests(q: Requests, r: Requests) {
    && (forall t :: t in r.tickets ==> t in q.tickets && r.tickets[t] == q.tickets[t])
    && (forall t :: t in r.pres ==> t in q.pres && r.pres[t] == q.pres[t])
    && (forall t :: t in r.regs ==> t in q.regs && r.regs[t] == q.regs[t])
    && (forall t :: t in r.resumes ==> t in q.resumes && r.resumes[t] == q.resumes[t])
  }

  lemma FewerHold(f: Fleet, q: Requests, r: Requests)
    requires RequestsHold(f, q) && FewerRequests(q, r)
    ensures RequestsHold(f, r)
  {
  }

  /** A change of the fleet that freezes records and keeps the forest keeps everything. */
  lemma FleetChangeKeeps(w: World, v: World)
    requires Inv(w) && FleetKept(w.auth.fleet, v.auth.fleet) && Forest(v.auth.fleet) && FewerRequests(w.reqs, v.reqs)
    requires WithinCap(v.auth.fleet, v.cap) && v.auth.enabled <= v.auth.fleet.Keys
    requires forall k :: k in w.cap ==> k in v.cap && v.cap[k] == w.cap[k]
    ensures Inv(v) && Kept(w, v)
  {
    FewerHold(w.auth.fleet, w.reqs, v.reqs);
    TicketsOutlive(w.auth.fleet, v.auth.fleet, v.reqs);
    RegsOutlive(w.auth.fleet, v.auth.fleet, v.reqs);
  }

  /** Rewriting records without touching an edge, an owner, an org or a placement. */
  ghost predicate Rewrites(f: Fleet, g: Fleet) {
    WellKeyed(g) && f.Keys == g.Keys && forall k :: k in f ==> Agrees(g[k], f[k])
  }

  lemma RewriteFreezes(f: Fleet, g: Fleet)
    requires Forest(f) && Rewrites(f, g)
    ensures Forest(g) && FleetKept(f, g)
  {
    forall k | k in f ensures Ancestors(g, k) == Ancestors(f, k) && exists n: nat :: Grounded(g, k, n) {
      AncestorsExtend(f, g, k);
      var n: nat :| Grounded(f, k, n);
      GroundedExtends(f, g, k, n);
    }
  }

  lemma RewriteKeeps(w: World, v: World)
    requires Inv(w) && Rewrites(w.auth.fleet, v.auth.fleet) && v.cap == w.cap && FewerRequests(w.reqs, v.reqs)
    requires v.auth.enabled <= v.auth.fleet.Keys
    ensures Inv(v) && Kept(w, v)
  {
    RewriteFreezes(w.auth.fleet, v.auth.fleet);
    FleetChangeKeeps(w, v);
  }

  lemma NewRecordInherits(f: Fleet, a: Agent)
    requires WellKeyed(f) && RootedParents(f) && Cascade.OrgInherited(f) && a.id != "" && a.id !in f
    requires a.parent == "" || (a.parent in f && f[a.parent].org == a.org)
    ensures Cascade.OrgInherited(f[a.id := a])
  {
  }

  lemma CapExtends(f: Fleet, a: Agent, c: nat, cap: map<string, nat>, cap': map<string, nat>)
    requires WithinCap(f, cap) && a.id !in f && FleetKept(f, f[a.id := a])
    requires cap' == cap || (cap' == cap[a.id := c] && (c > 0 ==> |Ancestors(f[a.id := a], a.id)| <= c))
    ensures WithinCap(f[a.id := a], cap') && forall k :: k in cap ==> k in cap' && cap'[k] == cap[k]
  {
  }

  lemma NewRecordKeeps(w: World, a: Agent, c: nat, v: World)
    requires Inv(w) && a.id != "" && a.id !in w.auth.fleet
    requires a.parent == "" || Fits(w.auth.fleet, a.parent, a.org, c)
    requires v.auth.fleet == w.auth.fleet[a.id := a] && v.auth.enabled <= w.auth.enabled + {a.id}
    requires v.cap == w.cap || (v.cap == w.cap[a.id := c] && a.parent != "")
    requires FewerRequests(w.reqs, v.reqs)
    ensures Inv(v) && Kept(w, v)
  {
    var f, g := w.auth.fleet, v.auth.fleet;
    NewRecord(f, a);
    NewRecordInherits(f, a);
    assert FleetKept(f, g);
    CapExtends(f, a, c, w.cap, v.cap);
    FleetChangeKeeps(w, v);
  }

  // The steps.

  lemma PreStoreKeeps(w: World, s: Step)
    requires Inv(w) && Legal(w, s) && s.PreStore?
    ensures Inv(Apply(w, s)) && Kept(w, Apply(w, s))
  {
    if s.thread in w.reqs.pres {
      var p := w.reqs.pres[s.thread];
      NewRecordKeeps(w, p.rec, p.maxDepth, Apply(w, s));
    }
  }

  /** A registration that read its id as unknown writes over a record that differs from what it
      would store: the record was preregistered in between. */
  predicate Blind(w: World, s: Step) {
    && s.RegWrite? && Writes(w, s.thread) && w.reqs.regs[s.thread].id in w.auth.fleet
    && !Agrees(Written(w.reqs.regs[s.thread], s.agentType, s.tenant, s.user, s.bodyParent), w.auth.fleet[w.reqs.regs[s.thread].id])
  }

  /** A registration of an unknown id names a parent under which it does not belong: one that is not
      stored, or one that has an org while the newcomer has none. */
  predicate Misplaced(w: World, s: Step) {
    && s.RegWrite? && Writes(w, s.thread) && w.reqs.regs[s.thread].id !in w.auth.fleet && s.bodyParent != ""
    && !(s.bodyParent in w.auth.fleet && w.auth.fleet[s.bodyParent].org == "")
  }

  predicate Derails(w: World, s: Step) {
    Blind(w, s) || Misplaced(w, s)
  }

  lemma RegWriteKeeps(w: World, s: Step)
    requires Inv(w) && Legal(w, s) && s.RegWrite? && !Derails(w, s)
    ensures Inv(Apply(w, s)) && Kept(w, Apply(w, s))
  {
    if Writes(w, s.thread) {
      var v := Apply(w, s);
      var a := Written(w.reqs.regs[s.thread], s.agentType, s.tenant, s.user, s.bodyParent);
      if a.id in w.auth.fleet {
        assert Rewrites(w.auth.fleet, v.auth.fleet);
        RewriteKeeps(w, v);
      } else {
        NewRecordKeeps(w, a, 0, v);
      }
    }
  }

  lemma DerailBreaks(w: World, s: Step)
    requires Inv(w) && Derails(w, s)
    ensures !(Inv(Apply(w, s)) && Kept(w, Apply(w, s)))
  {
    var id, g := w.reqs.regs[s.thread].id, Apply(w, s).auth.fleet;
    if Blind(w, s) {
      assert !Agrees(g[id], w.auth.fleet[id]);
    } else {
      assert g[id].parent == s.bodyParent && g[id].org == "";
      if s.bodyParent == id {
        assert Climbs(g, id, id, 0) && Climbs(g, id, id, 1);
        forall n: nat ensures !Grounded(g, id, n) {
          if Grounded(g, id, n) { GroundedHasNoLoop(g, id, n, 1); }
        }
        assert !Acyclic(g);
      }
    }
  }

  lemma AuthorityRewrites(a: Authority, ids: set<string>)
    requires WellKeyed(a.fleet) && a.enabled <= a.fleet.Keys
    ensures Rewrites(a.fleet, RevokeAll(a, ids).fleet) && RevokeAll(a, ids).enabled <= a.fleet.Keys
    ensures Rewrites(a.fleet, ResumeAll(a, ids).fleet) && ResumeAll(a, ids).enabled <= a.fleet.Keys
  {
  }

  lemma PatchKeeps(w: World, id: string, st: Status)
    requires Inv(w) && id in w.auth.fleet
    ensures Inv(Patched(w, id, st)) && Kept(w, Patched(w, id, st))
  {
    RewriteKeeps(w, Patched(w, id, st));
  }

  lemma DismissKeeps(w: World, id: string)
    requires Inv(w) && id in w.auth.fleet
    ensures var v := Put(w, w.auth.fleet[id].(dismissed := true)); Inv(v) && Kept(w, v)
  {
    RewriteKeeps(w, Put(w, w.auth.fleet[id].(dismissed := true)));
  }

  lemma RevokeKeeps(w: World, ids: set<string>)
    requires Inv(w)
    ensures var v := w.(auth := RevokeAll(w.auth, ids)); Inv(v) && Kept(w, v)
  {
    AuthorityRewrites(w.auth, ids);
    RewriteKeeps(w, w.(auth := RevokeAll(w.auth, ids)));
  }

  lemma NodeDropHolds(f: Fleet, q: Requests, t: nat, id: string)
    requires RequestsHold(f, q) && t in q.resumes && q.resumes[t].Listed?
    ensures RequestsHold(f, q.(resumes := q.resumes[t := Listed(q.resumes[t].root, q.resumes[t].nodes - {id})]))
  {
    var r := q.(resumes := q.resumes[t := Listed(q.resumes[t].root, q.resumes[t].nodes - {id})]);
    assert TicketsHold(f, r) && PresHold(f, r) && RegsHold(f, r);
  }

  lemma ResumeNodeKeeps(w: World, t: nat, id: string)
    requires Inv(w) && Resumes(w, t, id)
    ensures Inv(ResumedNode(w, t, id)) && Kept(w, ResumedNode(w, t, id))
  {
    var u := w.(auth := ResumeAll(w.auth, {id}));
    AuthorityRewrites(w.auth, {id});
    RewriteKeeps(w, u);
    NodeDropHolds(u.auth.fleet, u.reqs, t, id);
  }

  lemma {:induction false} UnderSharesOrg(f: Fleet, x: string, r: string, n: nat)
    requires Cascade.OrgInherited(f) && x in f && r in f && Climbs(f, x, r, n)
    ensures f[x].org == f[r].org
    decreases n
  {
    if n > 0 { UnderSharesOrg(f, f[x].parent, r, n - 1); }
  }

  lemma SubtreeSharesOrg(f: Fleet, r: string)
    requires Cascade.OrgInherited(f) && r in f
    ensures forall k :: k in Cascade.Descendants(f, r) ==> k in f && f[k].org == f[r].org
  {
    forall k | k in Cascade.Descendants(f, r) ensures k in f && f[k].org == f[r].org {
      var n: nat :| Climbs(f, k, r, n);
      UnderSharesOrg(f, k, r, n);
    }
  }

  predicate Advances(s: Step) {
    s.PreGuard? || s.Admit? || s.ChildGuard? || s.RegRead? || s.RegGuard? || s.ResumeGuard? || s.ResumeList?
  }

  lemma SpawnAdvanceHolds(w: World, s: Step)
    requires RequestsHold(w.auth.fleet, w.reqs) && Legal(w, s) && (s.PreGuard? || s.Admit? || s.ChildGuard?)
    ensures RequestsHold(w.auth.fleet, Advance(w, s))
  {
    var q := Advance(w, s);
    assert q.regs == w.reqs.regs && q.resumes == w.reqs.resumes;
  }

  lemma RegAdvanceHolds(w: World, s: Step)
    requires RegsHold(w.auth.fleet, w.reqs) && Legal(w, s) && (s.RegRead? || s.RegGuard?)
    ensures RegsHold(w.auth.fleet, Advance(w, s)) && Advance(w, s) == w.reqs.(regs := Advance(w, s).regs)
  {
  }

  lemma ResumeAdvanceHolds(w: World, s: Step)
    requires Cascade.OrgInherited(w.auth.fleet) && ResumesHold(w.auth.fleet, w.reqs) && (s.ResumeGuard? || s.ResumeList?)
    ensures ResumesHold(w.auth.fleet, Advance(w, s)) && Advance(w, s) == w.reqs.(resumes := Advance(w, s).resumes)
  {
    if s.ResumeList? && s.thread in w.reqs.resumes { SubtreeSharesOrg(w.auth.fleet, w.reqs.resumes[s.thread].root); }
  }

  lemma AdvanceHolds(w: World, s: Step)
    requires Forest(w.auth.fleet) && RequestsHold(w.auth.fleet, w.reqs) && Legal(w, s) && Advances(s)
    ensures RequestsHold(w.auth.fleet, Advance(w, s))
  {
    if s.PreGuard? || s.Admit? || s.ChildGuard? {
      SpawnAdvanceHolds(w, s);
    } else if s.RegRead? || s.RegGuard? {
      RegAdvanceHolds(w, s);
    } else {
      ResumeAdvanceHolds(w, s);
    }
  }

  /** Each step keeps the lineage invariant and freezes every existing record's lineage iff it is
      not a registration that derails. */
  lemma StepKeepsIff(w: World, s: Step)
    requires Inv(w) && Legal(w, s)
    ensures Inv(Apply(w, s)) && Kept(w, Apply(w, s)) <==> !Derails(w, s)
  {
    if Derails(w, s) {
      DerailBreaks(w, s);
    } else if Advances(s) {
      AdvanceHolds(w, s);
    } else if s.PreStore? {
      PreStoreKeeps(w, s);
    } else if s.RegWrite? {
      RegWriteKeeps(w, s);
    } else if s.ResumeNode? {
      if Resumes(w, s.thread, s.id) { ResumeNodeKeeps(w, s.thread, s.id); }
    } else if s.RevokeNodes? {
      RevokeKeeps(w, s.ids);
    } else if !s.SetSuspended? && s.id in w.auth.fleet {
      if s.Patch? { PatchKeeps(w, s.id, s.status); } else { DismissKeeps(w, s.id); }
    }
  }

  ghost predicate NeverDerails(w: World, steps: seq<Step>)
    decreases |steps|
  {
    steps != [] ==> !Derails(w, steps[0]) && NeverDerails(Apply(w, steps[0]), steps[1..])
  }

  ghost predicate SoundThroughout(w: World, steps: seq<Step>)
    decreases |steps|
  {
    steps != [] ==>
      Inv(Apply(w, steps[0])) && Kept(w, Apply(w, steps[0])) && SoundThroughout(Apply(w, steps[0]), steps[1..])
  }

  lemma KeptTransitive(u: World, v: World, w: World)
    requires Kept(u, v) && Kept(v, w)
    ensures Kept(u, w)
  {
  }

  /** The lineage theorem: along any continuation of a reachable world, every state keeps the forest,
      org inheritance and the depth caps, and every step freezes the lineage of existing records, iff
      no registration derails. */
  lemma {:induction false} LineageForever(w: World, steps: seq<Step>)
    requires Inv(w) && LegalRun(w, steps)
    ensures SoundThroughout(w, steps) <==> NeverDerails(w, steps)
    ensures NeverDerails(w, steps) ==> Inv(Exec(w, steps)) && Kept(w, Exec(w, steps))
    decreases |steps|
  {
    if steps != [] {
      var v := Apply(w, steps[0]);
      StepKeepsIff(w, steps[0]);
      if !Derails(w, steps[0]) {
        LineageForever(v, steps[1..]);
        if NeverDerails(v, steps[1..]) { KeptTransitive(w, v, Exec(v, steps[1..])); }
      }
    }
  }

  /** Blind writes are real: a registration that starts before the preregistration of its id and
      ends after it takes the record out of its org. */
  lemma LateRegistrationRewrites(w: World, t: nat, id: string, org: string, user: string)
    requires Inv(w) && id != "" && id !in w.auth.fleet && t !in w.reqs.regs && t !in w.reqs.pres
    requires org != "" && org !in w.suspended && "" !in w.suspended
    ensures var steps := [RegRead(t, id), RegGuard(t), PreGuard(t, id, "", "", user, org, Kubernetes), PreStore(t), RegWrite(t, "", "", user, "")];
            var v := Exec(w, steps);
            LegalRun(w, steps) && id in v.auth.fleet && v.auth.fleet[id].org == ""
  {
    var a, b, c, d, e := RegRead(t, id), RegGuard(t), PreGuard(t, id, "", "", user, org, Kubernetes), PreStore(t), RegWrite(t, "", "", user, "");
    var w2 := Apply(Apply(w, a), b);
    var w4 := Apply(Apply(w2, c), d);
    assert w2.reqs.regs[t] == Registration(id, None, true) && w4.reqs.regs == w2.reqs.regs;
    FiveSteps(w, a, b, c, d, e);
  }

  lemma FiveSteps(w: World, a: Step, b: Step, c: Step, d: Step, e: Step)
    requires var w1 := Apply(w, a); var w2 := Apply(w1, b); var w3 := Apply(w2, c); var w4 := Apply(w3, d);
             Legal(w, a) && Legal(w1, b) && Legal(w2, c) && Legal(w3, d) && Legal(w4, e)
    ensures LegalRun(w, [a, b, c, d, e]) && Exec(w, [a, b, c, d, e]) == Apply(Apply(Apply(Apply(Apply(w, a), b), c), d), e)
  {
    var s := [a, b, c, d, e];
    var w1 := Apply(w, a);
    var w2 := Apply(w1, b);
    var w3 := Apply(w2, c);
    var w4 := Apply(w3, d);
    var w5 := Apply(w4, e);
    assert s[1..][1..][1..][1..][1..] == [];
    assert Exec(w5, []) == w5 && LegalRun(w5, []);
    assert Exec(w4, s[1..][1..][1..][1..]) == w5 && LegalRun(w4, s[1..][1..][1..][1..]);
    assert Exec(w3, s[1..][1..][1..]) == w5 && LegalRun(w3, s[1..][1..][1..]);
    assert Exec(w2, s[1..][1..]) == w5 && LegalRun(w2, s[1..][1..]);
    assert Exec(w1, s[1..]) == w5 && LegalRun(w1, s[1..]);
  }

  const EMPTY_WORLD := World(Authority(map[], {}), {}, Requests(map[], map[], map[], map[]), map[])

  /** In every world a run reaches from scratch without derailing, suspending an org, deleting a user
      and removing a member each revoke every agent they select. */
  lemma ReachableCascadesAreComplete(steps: seq<Step>, org: string, user: string)
    requires LegalRun(EMPTY_WORLD, steps) && NeverDerails(EMPTY_WORLD, steps)
    ensures var f := Exec(EMPTY_WORLD, steps).auth.fleet;
            && Cascade.Selected(f, Cascade.InOrg(org)) <= Cascade.CascadeSet(f, Cascade.InOrg(org), Cascade.InOrg(org))
            && Cascade.Selected(f, Cascade.OrglessOwnedBy(user))
               <= Cascade.CascadeSet(f, Cascade.OwnedBy(user), Cascade.OrglessOwnedBy(user))
            && Cascade.Selected(f, Cascade.MemberAgent(org, user))
               <= Cascade.CascadeSet(f, Cascade.MemberAgent(org, user), Cascade.MemberAgent(org, user))
  {
    LineageForever(EMPTY_WORLD, steps);
    var f := Exec(EMPTY_WORLD, steps).auth.fleet;
    Cascade.SameScopeIsClosed(f, Cascade.InOrg(org));
    Cascade.OrglessDeleteIsClosed(f, user);
    Cascade.SameScopeIsClosed(f, Cascade.MemberAgent(org, user));
    Cascade.AllSelectedCovered(f, Cascade.InOrg(org), Cascade.InOrg(org));
    Cascade.AllSelectedCovered(f, Cascade.OwnedBy(user), Cascade.OrglessOwnedBy(user));
    Cascade.AllSelectedCovered(f, Cascade.MemberAgent(org, user), Cascade.MemberAgent(org, user));
  }

  // Agents that have ended.

  predicate EndedStatus(st: Status) {
    st == Completed || st == Failed || st == Revoked
  }

  /** The agent is stored as completed, failed or revoked, and no registration of it is under way. */
  ghost predicate Ended(w: World, k: string) {
    && k in w.auth.fleet && EndedStatus(w.auth.fleet[k].status)
    && forall t :: t in w.reqs.regs ==> w.reqs.regs[t].id != k
  }

  /** What alone brings an ended agent back: a status report from outside, or a resume of it while it
      is revoked. */
  predicate Revives(w: World, s: Step, k: string) {
    || (s.Patch? && s.id == k && !EndedStatus(s.status))
    || (s.ResumeNode? && s.id == k && Resumes(w, s.thread, k) && k in w.auth.fleet && w.auth.fleet[k].status == Revoked)
  }

  lemma AdvanceStaysEnded(w: World, s: Step, k: string)
    requires Advances(s) && Ended(w, k)
    ensures Ended(Apply(w, s), k) && Apply(w, s).auth == w.auth
  {
    var r, v := w.reqs.regs, Apply(w, s);
    if s.RegRead? {
      assert v.reqs.regs == r || (s.id != k && v.reqs.regs == r[s.thread := v.reqs.regs[s.thread]] && v.reqs.regs[s.thread].id == s.id);
    } else {
      assert forall t :: t in v.reqs.regs ==> t in r && v.reqs.regs[t].id == r[t].id;
    }
  }

  lemma EndedStepIff(w: World, s: Step, k: string)
    requires WellKeyed(w.auth.fleet) && PresHold(w.auth.fleet, w.reqs) && Legal(w, s) && Ended(w, k)
    ensures Ended(Apply(w, s), k) <==> !Revives(w, s, k)
    ensures !Revives(w, s, k) && k in Apply(w, s).auth.enabled ==> k in w.auth.enabled
    ensures !Revives(w, s, k) && !(s.Patch? && s.id == k) ==> Apply(w, s).auth.fleet[k].status == w.auth.fleet[k].status
  {
    if Advances(s) { AdvanceStaysEnded(w, s, k); }
  }

  ghost predicate NeverRevives(w: World, steps: seq<Step>, k: string)
    decreases |steps|
  {
    steps != [] ==> !Revives(w, steps[0], k) && NeverRevives(Apply(w, steps[0]), steps[1..], k)
  }

  ghost predicate EndedThroughout(w: World, steps: seq<Step>, k: string)
    decreases |steps|
  {
    Ended(w, k) && (steps != [] ==> EndedThroughout(Apply(w, steps[0]), steps[1..], k))
  }

  /** An ended agent stays ended in every state of a run, and gains no tuple, iff no step revives it:
      no registration of its own can. */
  lemma {:induction false} EndedForeverIff(w: World, steps: seq<Step>, k: string)
    requires Inv(w) && LegalRun(w, steps) && NeverDerails(w, steps) && Ended(w, k)
    ensures EndedThroughout(w, steps, k) <==> NeverRevives(w, steps, k)
    ensures NeverRevives(w, steps, k) && k in Exec(w, steps).auth.enabled ==> k in w.auth.enabled
    decreases |steps|
  {
    if steps != [] {
      EndedStepIff(w, steps[0], k);
      StepKeepsIff(w, steps[0]);
      if !Revives(w, steps[0], k) { EndedForeverIff(Apply(w, steps[0]), steps[1..], k); }
    }
  }

  // An ended agent holds no tuple.

  ghost predicate EndedAreDisabled(a: Authority) {
    forall k :: k in a.fleet && EndedStatus(a.fleet[k].status) ==> k !in a.enabled
  }

  /** A status report of `revoked` leaves the tuple standing. */
  predicate RevokesByReport(w: World, s: Step) {
    s.Patch? && s.status == Revoked && s.id in w.auth.fleet && s.id in w.auth.enabled
  }

  lemma DisabledStepIff(w: World, s: Step)
    requires WellKeyed(w.auth.fleet) && w.auth.enabled <= w.auth.fleet.Keys && Legal(w, s) && EndedAreDisabled(w.auth)
    ensures EndedAreDisabled(Apply(w, s).auth) <==> !RevokesByReport(w, s)
  {
    if Advances(s) {
      assert Apply(w, s).auth == w.auth;
    } else if s.Patch? && s.id in w.auth.fleet {
      assert RevokesByReport(w, s) ==> s.id in Apply(w, s).auth.enabled;
    }
  }

  ghost predicate NeverRevokesByReport(w: World, steps: seq<Step>)
    decreases |steps|
  {
    steps != [] ==> !RevokesByReport(w, steps[0]) && NeverRevokesByReport(Apply(w, steps[0]), steps[1..])
  }

  ghost predicate DisabledThroughout(w: World, steps: seq<Step>)
    decreases |steps|
  {
    EndedAreDisabled(w.auth) && (steps != [] ==> DisabledThroughout(Apply(w, steps[0]), steps[1..]))
  }

  /** In every state of a run no completed, failed or revoked agent holds its tuple, iff no status
      report marks an enabled agent revoked. */
  lemma {:induction false} EndedAreDisabledIff(w: World, steps: seq<Step>)
    requires Inv(w) && LegalRun(w, steps) && NeverDerails(w, steps) && EndedAreDisabled(w.auth)
    ensures DisabledThroughout(w, steps) <==> NeverRevokesByReport(w, steps)
    decreases |steps|
  {
    if steps != [] {
      DisabledStepIff(w, steps[0]);
      StepKeepsIff(w, steps[0]);
      if !RevokesByReport(w, steps[0]) { EndedAreDisabledIff(Apply(w, steps[0]), steps[1..]); }
    }
  }

  // Whole requests, when nothing runs in between.

  /** A root spawn stores a pending record as asked, unless its org is suspended. */
  lemma UninterruptedRoot(w: World, t: nat, id: string, agentType: string, tenant: string, user: string, org: string, placement: Placement)
    requires t !in w.reqs.pres
    ensures var v := Apply(Apply(w, PreGuard(t, id, agentType, tenant, user, org, placement)), PreStore(t));
            && v.reqs == w.reqs && v.cap == w.cap && v.suspended == w.suspended && v.auth.enabled == w.auth.enabled
            && v.auth.fleet == if org in w.suspended then w.auth.fleet
                               else w.auth.fleet[id := Agent(id, agentType, tenant, user, Pending, false, "", org, placement)]
  {
    var u := Apply(w, PreGuard(t, id, agentType, tenant, user, org, placement));
    assert u.reqs.pres - {t} == w.reqs.pres;
  }

  predicate MaySpawn(w: World, parent: string, allowed: bool) {
    parent in w.auth.fleet && allowed && w.auth.fleet[parent].org !in w.suspended
  }

  lemma ChildPasses(
    w: World, t: nat, parent: string, allowed: bool, maxDepth: nat, id: string, agentType: string, user: string, placement: Placement)
    requires t !in w.reqs.pres && t !in w.reqs.tickets
    ensures var x := Apply(Apply(w, Admit(t, parent, allowed, maxDepth)), ChildGuard(t, id, agentType, user, placement));
            && x == w.(reqs := x.reqs)
            && if MaySpawn(w, parent, allowed) && (maxDepth == 0 || |Ancestors(w.auth.fleet, parent)| < maxDepth)
               then var p := w.auth.fleet[parent];
                    var rec := Agent(id, agentType, p.tenant, user, Pending, false, parent, p.org, placement);
                    x.reqs == w.reqs.(pres := w.reqs.pres[t := Pre(rec, maxDepth)])
               else x.reqs.pres == w.reqs.pres
  {
    var u := Apply(w, Admit(t, parent, allowed, maxDepth));
    assert u.reqs.tickets - {t} == w.reqs.tickets;
  }

  /** A child spawn stores a pending record below its parent, in the parent's tenant and org, iff the
      parent is stored, the policy allows it, the parent's org is not suspended, and the parent's
      chain is shorter than the limit; otherwise no record and no tuple moves. */
  lemma UninterruptedChild(
    w: World, t: nat, parent: string, allowed: bool, maxDepth: nat, id: string, agentType: string, user: string, placement: Placement)
    requires t !in w.reqs.pres && t !in w.reqs.tickets && parent != ""
    ensures var v := Apply(Apply(Apply(w, Admit(t, parent, allowed, maxDepth)), ChildGuard(t, id, agentType, user, placement)), PreStore(t));
            if MaySpawn(w, parent, allowed) && (maxDepth == 0 || |Ancestors(w.auth.fleet, parent)| < maxDepth)
            then var p := w.auth.fleet[parent];
                 && v.auth == w.auth.(fleet := w.auth.fleet[id := Agent(id, agentType, p.tenant, user, Pending, false, parent, p.org, placement)])
                 && v.cap == w.cap[id := maxDepth] && v.reqs == w.reqs
            else v.auth == w.auth && v.cap == w.cap
  {
    ChildPasses(w, t, parent, allowed, maxDepth, id, agentType, user, placement);
    var x := Apply(Apply(w, Admit(t, parent, allowed, maxDepth)), ChildGuard(t, id, agentType, user, placement));
    assert x.reqs.pres - {t} == w.reqs.pres;
  }

  predicate RefusesRegistration(w: World, id: string) {
    if id in w.auth.fleet then w.auth.fleet[id].status in {Completed, Failed, Revoked} || w.auth.fleet[id].org in w.suspended
    else "" in w.suspended
  }

  lemma RegistrationPasses(w: World, t: nat, id: string)
    requires t !in w.reqs.regs
    ensures var x := Apply(Apply(w, RegRead(t, id)), RegGuard(t));
            && x == w.(reqs := w.reqs.(regs := x.reqs.regs))
            && x.reqs.regs == if RefusesRegistration(w, id) then w.reqs.regs
                              else w.reqs.regs[t := Registration(id, if id in w.auth.fleet then Some(w.auth.fleet[id]) else None, true)]
  {
    var u := Apply(w, RegRead(t, id));
    assert u.reqs.regs - {t} == w.reqs.regs;
  }

  /** A registration is refused, with nothing changed, iff its record is completed, failed or revoked
      or its org is suspended. Otherwise the record becomes active and undismissed and gains its
      tuple, keeping the parent, owner, org and placement it was preregistered with. */
  lemma UninterruptedRegistration(w: World, t: nat, id: string, agentType: string, tenant: string, user: string, parent: string)
    requires t !in w.reqs.regs
    ensures var v := Apply(Apply(Apply(w, RegRead(t, id)), RegGuard(t)), RegWrite(t, agentType, tenant, user, parent));
            var known := id in w.auth.fleet;
            && v.reqs == w.reqs && v.cap == w.cap
            && if RefusesRegistration(w, id)
               then v.auth == w.auth
               else && v.auth.enabled == w.auth.enabled + {id}
                    && v.auth.fleet == w.auth.fleet[id :=
                         if known then w.auth.fleet[id].(id := id, agentType := agentType, tenant := tenant, status := Active, dismissed := false)
                         else Agent(id, agentType, tenant, user, Active, false, parent, "", Kubernetes)]
  {
    RegistrationPasses(w, t, id);
    var x := Apply(Apply(w, RegRead(t, id)), RegGuard(t));
    assert x.reqs.regs - {t} == w.reqs.regs;
  }

  lemma ResumeLists(w: World, t: nat, root: string)
    requires t !in w.reqs.resumes
    ensures var u := Apply(Apply(w, ResumeGuard(t, root)), ResumeList(t));
            && u == w.(reqs := w.reqs.(resumes := u.reqs.resumes))
            && u.reqs.resumes == if root in w.auth.fleet && w.auth.fleet[root].org !in w.suspended
                                 then w.reqs.resumes[t := Listed(root, Cascade.Descendants(w.auth.fleet, root))]
                                 else w.reqs.resumes
  {
  }

  /** A resume of a stored agent outside suspended orgs makes a revoked node at or below it active
      again, with its tuple, and comes back to that node no more; any other node stays as it is. */
  lemma UninterruptedResume(w: World, t: nat, root: string, k: string)
    requires t !in w.reqs.resumes
    ensures var v := Apply(Apply(Apply(w, ResumeGuard(t, root)), ResumeList(t)), ResumeNode(t, k));
            && (forall x :: x in w.auth.fleet && x != k ==> x in v.auth.fleet && v.auth.fleet[x] == w.auth.fleet[x])
            && !Resumes(v, t, k)
            && if && root in w.auth.fleet && w.auth.fleet[root].org !in w.suspended
                  && Under(w.auth.fleet, k, root) && w.auth.fleet[k].status == Revoked
               then k in v.auth.fleet && v.auth.fleet[k] == w.auth.fleet[k].(status := Active) && v.auth.enabled == w.auth.enabled + {k}
               else v.auth == w.auth
  {
    ResumeLists(w, t, root);
    var u := Apply(Apply(w, ResumeGuard(t, root)), ResumeList(t));
    if Resumes(u, t, k) {
      assert k in Cascade.Descendants(w.auth.fleet, root);
      var b := ResumeAll(w.auth, {k});
      if !Resumable(w.auth.fleet, {k}, k) { assert b.fleet == w.auth.fleet && b.enabled == w.auth.enabled; }
    }
  }

  ghost predicate OthersKept(w: World, v: World, id: string) {
    && v == w.(auth := v.auth) && v.auth.fleet.Keys == w.auth.fleet.Keys
    && (forall k :: k in w.auth.fleet && k != id ==> v.auth.fleet[k] == w.auth.fleet[k])
    && (forall k :: k != id ==> (k in v.auth.enabled <==> k in w.auth.enabled))
  }

  /** A status report stores the status of a known agent and ends its tuple iff it says completed or
      failed; a dismissal marks the record and leaves status and tuple alone. Neither touches any
      other field, record or tuple, and neither makes an unknown agent known. */
  lemma ReportsAreExact(w: World, id: string, st: Status)
    requires WellKeyed(w.auth.fleet)
    ensures var v := Apply(w, Patch(id, st));
            && OthersKept(w, v, id)
            && (id in w.auth.fleet ==> v.auth.fleet[id] == w.auth.fleet[id].(status := st))
            && (id in w.auth.fleet && id in w.auth.enabled ==> (id in v.auth.enabled <==> st != Completed && st != Failed))
            && (id !in w.auth.enabled ==> id !in v.auth.enabled)
    ensures var v := Apply(w, Dismiss(id));
            && OthersKept(w, v, id) && v.auth.enabled == w.auth.enabled
            && (id in w.auth.fleet ==> v.auth.fleet[id] == w.auth.fleet[id].(dismissed := true))
  {
  }

  // Registration with an arbitrary parent: exactly when it keeps the graph acyclic.

  lemma {:induction false} ClimbSurvivesPut(f: Fleet, g: Fleet, id: string, x: string, y: string, n: nat)
    requires forall k :: k in f && k != id ==> k in g && g[k].parent == f[k].parent
    requires Climbs(f - {id}, x, y, n)
    ensures Climbs(g, x, y, n)
    decreases n
  {
    if n > 0 { ClimbSurvivesPut(f, g, id, f[x].parent, y, n - 1); }
  }

  lemma {:induction false} GroundedApart(f: Fleet, a: Agent, x: string, n: nat)
    requires Grounded(f, x, n) && !Leads(f - {a.id}, x, a.id)
    ensures Grounded(f[a.id := a], x, n)
    decreases n
  {
    assert !Climbs(f - {a.id}, x, a.id, 0);
    if n > 0 {
      forall m: nat | Climbs(f - {a.id}, f[x].parent, a.id, m) ensures Climbs(f - {a.id}, x, a.id, m + 1) {}
      GroundedApart(f, a, f[x].parent, n - 1);
    }
  }

  lemma {:induction false} GroundedThrough(f: Fleet, g: Fleet, a: Agent, x: string, n: nat, m: nat)
    requires g == f[a.id := a] && Grounded(f, x, n) && Grounded(g, a.id, m)
    ensures exists k: nat :: Grounded(g, x, k)
    decreases n
  {
    if x != a.id {
      if n == 0 {
        assert Grounded(g, x, 0);
      } else {
        GroundedThrough(f, g, a, f[x].parent, n - 1, m);
        var k: nat :| Grounded(g, f[x].parent, k);
        assert Grounded(g, x, k + 1);
      }
    }
  }

  /** Storing a record over an acyclic lineage, whether the id is new or not and whatever
      parent it names, keeps the lineage acyclic iff that parent's chain, read without the
      id itself, does not lead back to the id. */
  lemma RegisterKeepsForestIff(f: Fleet, a: Agent)
    requires Acyclic(f)
    ensures Acyclic(f[a.id := a]) <==> !Leads(f - {a.id}, a.parent, a.id)
  {
    var g := f[a.id := a];
    if Leads(f - {a.id}, a.parent, a.id) {
      var n: nat :| Climbs(f - {a.id}, a.parent, a.id, n);
      ClimbSurvivesPut(f, g, a.id, a.parent, a.id, n);
      assert Climbs(g, a.id, a.id, n + 1);
      forall m: nat ensures !Grounded(g, a.id, m) {
        if Grounded(g, a.id, m) { GroundedHasNoLoop(g, a.id, m, n + 1); }
      }
      assert a.id in g && !Acyclic(g);
    } else {
      assert !Climbs(f - {a.id}, a.parent, a.id, 0);
      assert a.parent !in f ==> Grounded(f, a.parent, 0);
      var m: nat :| Grounded(f, a.parent, m);
      GroundedApart(f, a, a.parent, m);
      assert Grounded(g, a.id, m + 1);
      forall x | x in g ensures exists k: nat :: Grounded(g, x, k) {
        if x in f {
          var n: nat :| Grounded(f, x, n);
          GroundedThrough(f, g, a, x, n, m + 1);
        }
      }
    }
  }
}
