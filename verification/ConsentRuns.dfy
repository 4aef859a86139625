/** All interleavings of the consent broker's requests. Resolve is an unlocked check and a
    later locked commit; a read by id is a read, a grant lookup and a status flip; every other
    request may run between those parts. */
module ConsentRuns {
  import opened Common
  import opened Consent

  /** Where a resolve or a read by id stands. */
  datatype Pc =
    | Resolving(id: string, user: string, plan: Plan)
    | LookingUp(id: string, request: Request)
    | Flipping(id: string)

  /** A grant write, the request that caused it (a direct POST names none), and the user its
      resolve was scoped to, if any. */
  datatype Write = Write(edge: string, cause: Option<string>, user: string)

  /** What a read by id answered, and whether its lookup had found a covering grant. */
  datatype Answer = Answer(id: string, status: Verdict, covered: bool)

  datatype System = System(broker: Broker, threads: map<nat, Pc>, writes: seq<Write>, answers: seq<Answer>)

  datatype Step =
    | PostConsent(edge: string, grant: Grant)
    | RevokeGrants(id: string, user: string)
    | NewPending(id: string, request: Request)
    | NewApproved(id: string, request: Request, now: int)
    | ResolveCheck(thread: nat, id: string, user: string, approve: bool, scopes: Option<seq<string>>, expires: Option<int>, now: int)
    | ResolveCommit(thread: nat, gid: string)
    | Read(thread: nat, id: string)
    | Lookup(thread: nat, now: int)
    | Flip(thread: nat, now: int)

  function Answered(s: System, t: nat, a: Answer): System {
    s.(threads := s.threads - {t}, answers := s.answers + [a])
  }

  function Apply(s: System, e: Step): System {
    var b := s.broker;
    match e
    case PostConsent(edge, g) => s.(broker := Upsert(b, edge, g), writes := s.writes + [Write(edge, None, "")])
    case RevokeGrants(id, user) =>
      s.(broker := b.(grants := RevokedAt(b.grants, set k | k in b.grants && Named(b.grants[k], id, user))))
    case NewPending(id, r) => s.(broker := CreatePending(b, id, r))
    case NewApproved(id, r, now) => s.(broker := CreateApproved(b, id, r, now))
    case ResolveCheck(t, id, user, approve, scopes, expires, now) =>
      var plan := PlanFor(b, id, user, approve, scopes, expires, now);
      if plan.Some? then s.(threads := s.threads[t := Resolving(id, user, plan.value)]) else s
    case ResolveCommit(t, gid) =>
      if t !in s.threads || !s.threads[t].Resolving? then s
      else
        var id, plan := s.threads[t].id, s.threads[t].plan;
        s.(broker := Commit(b, id, plan, gid), threads := s.threads - {t},
           writes := if Approves(b, id, plan) then s.writes + [Write(Edge(b.requests[id]), Some(id), s.threads[t].user)] else s.writes)
    case Read(t, id) =>
      if id !in b.requests then s
      else if !b.requests[id].status.Pending? then Answered(s, t, Answer(id, b.requests[id].status, false))
      else s.(threads := s.threads[t := LookingUp(id, b.requests[id])])
    case Lookup(t, now) =>
      if t !in s.threads || !s.threads[t].LookingUp? then s
      else
        var r := s.threads[t].request;
        if Edge(r) in b.grants && Covers(b.grants[Edge(r)], r.scopes, now)
        then s.(threads := s.threads[t := Flipping(s.threads[t].id)])
        else Answered(s, t, Answer(s.threads[t].id, Pending, false))
    case Flip(t, now) =>
      if t !in s.threads || !s.threads[t].Flipping? || s.threads[t].id !in b.requests then s
      else
        var c := ApprovePending(b, s.threads[t].id, now);
        Answered(s.(broker := c), t, Answer(s.threads[t].id, c.requests[s.threads[t].id].status, true))
  }

  /** Ids minted from the clock are fresh, threads are their own, and a posted grant is live. */
  predicate Legal(s: System, e: Step) {
    match e
    case PostConsent(_, g) => !g.revoked && forall k :: k in s.broker.grants ==> s.broker.grants[k].id != g.id
    case NewPending(id, _) => id !in s.broker.requests
    case NewApproved(id, _, _) => id !in s.broker.requests
    case ResolveCheck(t, _, _, _, _, _, _) => t !in s.threads
    case ResolveCommit(_, gid) => forall k :: k in s.broker.grants ==> s.broker.grants[k].id != gid
    case Read(t, _) => t !in s.threads
    case _ => true
  }

  function Exec(s: System, steps: seq<Step>): System
    decreases |steps|
  {
    if steps == [] then s else Exec(Apply(s, steps[0]), steps[1..])
  }

  predicate LegalRun(s: System, steps: seq<Step>)
    decreases |steps|
  {
    steps != [] ==> Legal(s, steps[0]) && LegalRun(Apply(s, steps[0]), steps[1..])
  }

  const START := System(Broker(map[], map[], map[]), map[], [], [])

  /** A resolve scoped to a user is of that user's own request. */
  ghost predicate OwnedBy(b: Broker, id: string, user: string) {
    id in b.requests && (user == "" || b.requests[id].user == user)
  }

  ghost predicate ResolversOwn(s: System) {
    forall t :: t in s.threads && s.threads[t].Resolving? ==> OwnedBy(s.broker, s.threads[t].id, s.threads[t].user)
  }

  /** Each write by a request names an approved request on that very edge, of the user the resolve
      was scoped to, and no request is named twice. */
  ghost predicate WritesJustified(s: System) {
    && (forall i :: 0 <= i < |s.writes| && s.writes[i].cause.Some? ==>
          var id := s.writes[i].cause.value;
          && id in s.broker.requests && s.broker.requests[id].status.Approved? && Edge(s.broker.requests[id]) == s.writes[i].edge
          && OwnedBy(s.broker, id, s.writes[i].user))
    && (forall i, j :: 0 <= i < j < |s.writes| && s.writes[i].cause.Some? ==> s.writes[i].cause != s.writes[j].cause)
  }

  ghost predicate AnswersHonest(s: System) {
    forall i :: 0 <= i < |s.answers| && s.answers[i].covered ==> !s.answers[i].status.Pending?
  }

  ghost predicate Inv(s: System) {
    && IndexExact(s.broker) && UniqueIds(s.broker.grants)
    && WritesJustified(s) && ResolversOwn(s) && AnswersHonest(s)
  }

  /** Requests never vanish or change what they ask for, a verdict once given is final, the
      histories only grow, and grants change as GrantsLater says. */
  ghost predicate Later(s: System, t: System) {
    && RequestsLater(s.broker, t.broker) && GrantsLater(s, t)
    && |s.writes| <= |t.writes| && t.writes[..|s.writes|] == s.writes
    && |s.answers| <= |t.answers| && t.answers[..|s.answers|] == s.answers
    && (forall i :: |s.writes| <= i < |t.writes| && t.writes[i].cause.Some? && t.writes[i].cause.value in s.broker.requests ==>
          s.broker.requests[t.writes[i].cause.value].status.Pending?)
  }

  ghost predicate WrittenSince(writes: seq<Write>, n: nat, k: string) {
    exists i :: n <= i < |writes| && writes[i].edge == k
  }

  /** An edge keeps its grant and the grant its id; without a write on the edge nothing happens to
      the grant but being revoked. */
  ghost predicate GrantsLater(s: System, t: System) {
    forall k :: k in s.broker.grants ==>
      && k in t.broker.grants && t.broker.grants[k].id == s.broker.grants[k].id
      && (WrittenSince(t.writes, |s.writes|, k)
          || t.broker.grants[k] == s.broker.grants[k] || t.broker.grants[k] == s.broker.grants[k].(revoked := true))
  }

  ghost predicate RequestsLater(b: Broker, c: Broker) {
    forall id :: id in b.requests ==>
      && id in c.requests
      && c.requests[id].(status := Pending, resolvedAt := None) == b.requests[id].(status := Pending, resolvedAt := None)
      && (!b.requests[id].status.Pending? ==> c.requests[id] == b.requests[id])
  }

  /** The commit finds its request still pending and approves it. */
  predicate Approves(b: Broker, id: string, p: Plan) {
    id in b.requests && b.requests[id].status.Pending? && p.approve
  }

  lemma CommitTouchesOneGrant(b: Broker, id: string, p: Plan, gid: string)
    ensures var c := Commit(b, id, p, gid);
            && c.grants.Keys >= b.grants.Keys && (forall k :: k in b.grants ==> c.grants[k].id == b.grants[k].id)
            && (forall k :: k in b.grants && c.grants[k] != b.grants[k] ==> Approves(b, id, p) && k == Edge(b.requests[id]))
  {
  }

  lemma CommitIsLater(b: Broker, id: string, p: Plan, gid: string)
    ensures RequestsLater(b, Commit(b, id, p, gid))
  {
    var c := Commit(b, id, p, gid);
    if Approves(b, id, p) {
      ApprovalIsExact(b, id, p, gid);
      forall r | r in b.requests
        ensures r in c.requests
        ensures c.requests[r] == b.requests[r] || (b.requests[r].status.Pending? && c.requests[r] == Resolved(b.requests[r], Approved, p.now))
      {
      }
    }
  }

  lemma CommitApproves(b: Broker, id: string, p: Plan, gid: string)
    requires Approves(b, id, p)
    ensures var c := Commit(b, id, p, gid);
            id in c.requests && c.requests[id].status.Approved? && Edge(c.requests[id]) == Edge(b.requests[id])
  {
    ApprovalIsExact(b, id, p, gid);
  }

  lemma WritesStayJustified(s: System, v: System, w: Write)
    requires WritesJustified(s) && RequestsLater(s.broker, v.broker)
    requires v.writes == s.writes || v.writes == s.writes + [w]
    requires v.writes != s.writes && w.cause.Some? ==>
               && w.cause.value in s.broker.requests && s.broker.requests[w.cause.value].status.Pending?
               && v.broker.requests[w.cause.value].status.Approved? && Edge(v.broker.requests[w.cause.value]) == w.edge
               && OwnedBy(s.broker, w.cause.value, w.user)
    ensures WritesJustified(v)
  {
    forall i | 0 <= i < |s.writes| && s.writes[i].cause.Some?
      ensures var id := s.writes[i].cause.value;
              && id in v.broker.requests && v.broker.requests[id].status.Approved? && Edge(v.broker.requests[id]) == s.writes[i].edge
              && OwnedBy(v.broker, id, s.writes[i].user)
    {
    }
  }

  lemma CommitKeeps(s: System, e: Step)
    requires Inv(s) && Legal(s, e) && e.ResolveCommit?
    ensures Inv(Apply(s, e)) && Later(s, Apply(s, e))
  {
    if e.thread in s.threads && s.threads[e.thread].Resolving? {
      var b, id, plan := s.broker, s.threads[e.thread].id, s.threads[e.thread].plan;
      CommitKeepsIndex(b, id, plan, e.gid);
      CommitKeepsIds(b, id, plan, e.gid);
      CommitIsLater(b, id, plan, e.gid);
      CommitTouchesOneGrant(b, id, plan, e.gid);
      if Approves(b, id, plan) { CommitApproves(b, id, plan, e.gid); }
      var v := Apply(s, e);
      var w := Write(if Approves(b, id, plan) then Edge(b.requests[id]) else "", Some(id), s.threads[e.thread].user);
      WritesStayJustified(s, v, w);
      assert v.writes[..|s.writes|] == s.writes;
      assert Approves(b, id, plan) ==> v.writes[|s.writes|] == w;
    }
  }

  lemma GrantStepKeeps(s: System, e: Step)
    requires Inv(s) && Legal(s, e) && (e.PostConsent? || e.RevokeGrants?)
    ensures Inv(Apply(s, e)) && Later(s, Apply(s, e))
  {
    var v := Apply(s, e);
    assert v.writes[..|s.writes|] == s.writes;
    if e.PostConsent? { assert v.writes[|s.writes|].edge == e.edge; }
  }

  lemma CreatePendingKeeps(b: Broker, id: string, r: Request)
    requires IndexExact(b) && id !in b.requests
    ensures IndexExact(CreatePending(b, id, r)) && RequestsLater(b, CreatePending(b, id, r))
  {
    var k := OpenKey(r);
    if k !in b.open {
      var q := r.(status := Pending, resolvedAt := None);
      var c := CreatePending(b, id, r);
      assert OpenKey(q) == k;
      assert c.requests == b.requests[id := q] && c.open == b.open[k := id];
    }
  }

  lemma CreateApprovedKeeps(b: Broker, id: string, r: Request, now: int)
    requires IndexExact(b) && id !in b.requests
    ensures IndexExact(CreateApproved(b, id, r, now)) && RequestsLater(b, CreateApproved(b, id, r, now))
  {
  }

  lemma CreateKeeps(s: System, e: Step)
    requires Inv(s) && Legal(s, e) && (e.NewPending? || e.NewApproved?)
    ensures Inv(Apply(s, e)) && Later(s, Apply(s, e))
  {
    if e.NewPending? {
      CreatePendingKeeps(s.broker, e.id, e.request);
    } else {
      CreateApprovedKeeps(s.broker, e.id, e.request, e.now);
    }
    QuietStepKeeps(s, Apply(s, e));
  }

  lemma FlipIsLater(b: Broker, id: string, now: int)
    requires IndexExact(b)
    ensures var c := ApprovePending(b, id, now);
            && IndexExact(c) && RequestsLater(b, c) && c.grants == b.grants
            && (id in c.requests ==> !c.requests[id].status.Pending?)
  {
    if id in b.requests && b.requests[id].status.Pending? { CloseKeepsIndex(b, id, Approved, now); }
  }

  /** A step that writes no grant and leaves verdicts in place keeps everything. */
  lemma QuietStepKeeps(s: System, v: System)
    requires Inv(s) && IndexExact(v.broker) && RequestsLater(s.broker, v.broker) && v.broker.grants == s.broker.grants
    requires v.writes == s.writes && ResolversOwn(v) && AnswersHonest(v)
    requires |s.answers| <= |v.answers| && v.answers[..|s.answers|] == s.answers
    ensures Inv(v) && Later(s, v)
  {
    assert v.writes[..|s.writes|] == s.writes;
    if s.writes != [] { WritesStayJustified(s, v, s.writes[0]); }
  }

  /** A read by id, in all its parts, touches no grant. */
  lemma ReadKeeps(s: System, e: Step)
    requires Inv(s) && Legal(s, e) && (e.ResolveCheck? || e.Read? || e.Lookup? || e.Flip?)
    ensures Inv(Apply(s, e)) && Later(s, Apply(s, e))
    ensures Apply(s, e).broker.grants == s.broker.grants
  {
    var v := Apply(s, e);
    if e.Flip? && e.thread in s.threads && s.threads[e.thread].Flipping? {
      FlipIsLater(s.broker, s.threads[e.thread].id, e.now);
    }
    assert RequestsLater(s.broker, v.broker) && IndexExact(v.broker);
    assert ResolversOwn(v);
    assert v.answers == s.answers || v.answers[..|s.answers|] == s.answers;
    QuietStepKeeps(s, v);
  }

  lemma StepKeeps(s: System, e: Step)
    requires Inv(s) && Legal(s, e)
    ensures Inv(Apply(s, e)) && Later(s, Apply(s, e))
  {
    if e.ResolveCommit? {
      CommitKeeps(s, e);
    } else if e.PostConsent? || e.RevokeGrants? {
      GrantStepKeeps(s, e);
    } else if e.NewPending? || e.NewApproved? {
      CreateKeeps(s, e);
    } else {
      ReadKeeps(s, e);
    }
  }

  lemma LaterTransitive(s: System, t: System, u: System)
    requires Later(s, t) && Later(t, u)
    ensures Later(s, u)
  {
    assert u.writes[..|s.writes|] == u.writes[..|t.writes|][..|s.writes|];
    assert u.answers[..|s.answers|] == u.answers[..|t.answers|][..|s.answers|];
    forall k | WrittenSince(t.writes, |s.writes|, k) ensures WrittenSince(u.writes, |s.writes|, k) {
      var i :| |s.writes| <= i < |t.writes| && t.writes[i].edge == k;
      assert u.writes[i] == u.writes[..|t.writes|][i];
    }
    assert forall k :: WrittenSince(u.writes, |t.writes|, k) ==> WrittenSince(u.writes, |s.writes|, k);
  }

  /** The broker theorem: every interleaving keeps the index exact and every write justified,
      and whatever a state has decided, later states uphold. */
  lemma {:induction false} ConsentLinearizes(s: System, steps: seq<Step>)
    requires Inv(s) && LegalRun(s, steps)
    ensures Inv(Exec(s, steps)) && Later(s, Exec(s, steps))
    decreases |steps|
  {
    if steps != [] {
      var t := Apply(s, steps[0]);
      StepKeeps(s, steps[0]);
      ConsentLinearizes(t, steps[1..]);
      LaterTransitive(s, t, Exec(t, steps[1..]));
    } else {
      assert s.writes[..|s.writes|] == s.writes && s.answers[..|s.answers|] == s.answers;
    }
  }

  /** A request denied at some point of a run causes no grant write before or after it. */
  lemma DeniedWritesNothing(before: seq<Step>, after: seq<Step>, id: string)
    requires LegalRun(START, before)
    requires var s := Exec(START, before);
             LegalRun(s, after) && id in s.broker.requests && s.broker.requests[id].status.Denied?
    ensures var t := Exec(Exec(START, before), after);
            forall i :: 0 <= i < |t.writes| ==> t.writes[i].cause != Some(id)
  {
    ConsentLinearizes(START, before);
    ConsentLinearizes(Exec(START, before), after);
  }

  /** A revoked grant that is live again later was rewritten in between on that edge, by a POST
      or by an approval of a request that was not yet resolved when the grant was seen revoked. */
  lemma OnlyWritesUnrevoke(before: seq<Step>, after: seq<Step>, k: string)
    requires LegalRun(START, before)
    requires var s := Exec(START, before);
             LegalRun(s, after) && k in s.broker.grants && s.broker.grants[k].revoked
    ensures var s := Exec(START, before);
            var t := Exec(s, after);
            && k in t.broker.grants
            && (!t.broker.grants[k].revoked ==>
                  exists i :: && |s.writes| <= i < |t.writes| && t.writes[i].edge == k
                              && (t.writes[i].cause.Some? ==>
                                    var id := t.writes[i].cause.value;
                                    && id in t.broker.requests && t.broker.requests[id].status.Approved?
                                    && Edge(t.broker.requests[id]) == k
                                    && (id in s.broker.requests ==> s.broker.requests[id].status.Pending?)))
  {
    ConsentLinearizes(START, before);
    var s := Exec(START, before);
    ConsentLinearizes(s, after);
    var t := Exec(s, after);
    if !t.broker.grants[k].revoked {
      var i :| |s.writes| <= i < |t.writes| && t.writes[i].edge == k;
    }
  }

  /** A purge lists a user's grants and then revokes them one by one, each under its own lock, while
      other requests run in between. Whatever does, a listed grant ends revoked unless its edge was
      written again since the listing. */
  lemma PurgeRevokesWhatItListed(s: System, before: seq<Step>, after: seq<Step>, k: string, user: string)
    requires Inv(s) && k in s.broker.grants && (user == "" || s.broker.grants[k].user == user)
    requires var t := Exec(s, before);
             LegalRun(s, before) && LegalRun(Apply(t, RevokeGrants(s.broker.grants[k].id, user)), after)
    ensures var u := Exec(Apply(Exec(s, before), RevokeGrants(s.broker.grants[k].id, user)), after);
            k in u.broker.grants && (u.broker.grants[k].revoked || WrittenSince(u.writes, |s.writes|, k))
  {
    var e := RevokeGrants(s.broker.grants[k].id, user);
    var t := Exec(s, before);
    ConsentLinearizes(s, before);
    var v := Apply(t, e);
    StepKeeps(t, e);
    ConsentLinearizes(v, after);
    LaterTransitive(s, t, v);
    LaterTransitive(s, v, Exec(v, after));
    if !WrittenSince(t.writes, |s.writes|, k) { assert v.broker.grants[k].revoked; }
  }

  /** A read by id that nothing interrupts: a resolved request is answered as it stands; a pending one
      is approved and answered so iff the edge holds a live grant covering it, and otherwise stays and
      is answered pending. */
  lemma UninterruptedRead(s: System, t: nat, id: string, now: int)
    requires t !in s.threads && id in s.broker.requests
    ensures var v := Apply(Apply(Apply(s, Read(t, id)), Lookup(t, now)), Flip(t, now));
            var r := s.broker.requests[id];
            var edge := EdgeKey(r.user, r.parentType, r.childType);
            var covered := r.status == Pending && edge in s.broker.grants && Covers(s.broker.grants[edge], r.scopes, now);
            && v.threads == s.threads && v.broker.grants == s.broker.grants && |v.answers| == |s.answers| + 1
            && v.answers[|s.answers|] == Answer(id, if covered then Approved else r.status, covered)
            && v.broker.requests == (if covered then s.broker.requests[id := r.(status := Approved, resolvedAt := Some(now))] else s.broker.requests)
  {
    var s1 := Apply(s, Read(t, id));
    var s2 := Apply(s1, Lookup(t, now));
    assert s1.threads - {t} == s.threads && s2.threads - {t} == s.threads;
  }

  /** A resolve that nothing interrupts is its plan followed by its commit. */
  lemma UninterruptedResolve(
    s: System, t: nat, id: string, user: string, approve: bool, scopes: Option<seq<string>>, expires: Option<int>, now: int, gid: string)
    requires t !in s.threads
    ensures var v := Apply(Apply(s, ResolveCheck(t, id, user, approve, scopes, expires, now)), ResolveCommit(t, gid));
            var plan := PlanFor(s.broker, id, user, approve, scopes, expires, now);
            v.threads == s.threads && v.broker == if plan.Some? then Commit(s.broker, id, plan.value, gid) else s.broker
  {
    var s1 := Apply(s, ResolveCheck(t, id, user, approve, scopes, expires, now));
    assert s1.threads - {t} == s.threads;
  }

  /** A posted consent is the edge's grant as posted, but for the id an earlier grant keeps. */
  lemma PostedConsent(s: System, edge: string, g: Grant)
    ensures var v := Apply(s, PostConsent(edge, g));
            && v.broker.requests == s.broker.requests && v.broker.open == s.broker.open
            && v.broker.grants.Keys == s.broker.grants.Keys + {edge}
            && (forall k :: k in s.broker.grants && k != edge ==> v.broker.grants[k] == s.broker.grants[k])
            && v.broker.grants[edge] == g.(id := if edge in s.broker.grants then s.broker.grants[edge].id else g.id)
  {
  }

  /** A new request is stored as asked, pending and in the index, unless one is already open under its
      key; one that is created covered is stored approved and never enters the index. Neither writes a
      grant or touches another request. */
  lemma NewRequestsAreExact(s: System, id: string, r: Request, now: int)
    requires Inv(s) && id !in s.broker.requests
    ensures var v := Apply(s, NewPending(id, r));
            && v == s.(broker := v.broker) && v.broker.grants == s.broker.grants
            && if OpenKey(r) in s.broker.open then v.broker == s.broker
               else && v.broker.requests == s.broker.requests[id := r.(status := Pending, resolvedAt := None)]
                    && v.broker.open == s.broker.open[OpenKey(r) := id]
    ensures var v := Apply(s, NewApproved(id, r, now));
            && v == s.(broker := v.broker) && v.broker.grants == s.broker.grants && v.broker.open == s.broker.open
            && v.broker.requests == s.broker.requests[id := r.(status := Approved, resolvedAt := Some(now))]
  {
  }
}
