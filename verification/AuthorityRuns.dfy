/** Who may act, at the grain the registry really works at: a record write and the tuple
    write that goes with it are separate steps, and any other request may run between. */
module AuthorityRuns {
  import opened Lineage
  import opened Revocation
  import SpiffePath

  predicate Dead(st: Status) {
    st.Revoked? || st.Completed? || st.Failed?
  }

  /** A request between its record write and its tuple write. */
  datatype Pc = Opening(id: string) | Closing(id: string)

  datatype Plane = Plane(status: map<string, Status>, enabled: set<string>, threads: map<nat, Pc>)

  datatype Step =
    | OpenWrite(thread: nat, id: string)
    | CloseWrite(thread: nat, id: string, status: Status)
    | PatchWrite(id: string, status: Status)
    | TupleWrite(thread: nat, succeeds: bool)
    | TupleDelete(thread: nat, succeeds: bool)

  /** Self-registration and resume open; revoke and a terminal PATCH close; any other PATCH
      writes the status alone. A failed tuple call is passed over. */
  function Apply(p: Plane, s: Step): Plane {
    match s
    case OpenWrite(t, id) => p.(status := p.status[id := Active], threads := p.threads[t := Opening(id)])
    case CloseWrite(t, id, st) => p.(status := p.status[id := st], threads := p.threads[t := Closing(id)])
    case PatchWrite(id, st) => p.(status := p.status[id := st])
    case TupleWrite(t, ok) =>
      if t !in p.threads then p
      else p.(threads := p.threads - {t}, enabled := if ok then p.enabled + {p.threads[t].id} else p.enabled)
    case TupleDelete(t, ok) =>
      if t !in p.threads then p
      else p.(threads := p.threads - {t}, enabled := if ok then p.enabled - {p.threads[t].id} else p.enabled)
  }

  /** Requests use their own thread and take its two writes in order; a closing write stores
      a dead status. Nothing restricts which requests overlap. */
  predicate Legal(p: Plane, s: Step) {
    match s
    case OpenWrite(t, _) => t !in p.threads
    case CloseWrite(t, _, st) => t !in p.threads && Dead(st)
    case PatchWrite(_, _) => true
    case TupleWrite(t, _) => t in p.threads && p.threads[t].Opening?
    case TupleDelete(t, _) => t in p.threads && p.threads[t].Closing?
  }

  function Exec(p: Plane, steps: seq<Step>): Plane
    decreases |steps|
  {
    if steps == [] then p else Exec(Apply(p, steps[0]), steps[1..])
  }

  predicate LegalRun(p: Plane, steps: seq<Step>)
    decreases |steps|
  {
    steps != [] ==> Legal(p, steps[0]) && LegalRun(Apply(p, steps[0]), steps[1..])
  }

  ghost predicate IsDead(p: Plane, id: string) {
    id in p.status && Dead(p.status[id])
  }

  ghost predicate BeingOpened(p: Plane, id: string) {
    exists t :: t in p.threads && p.threads[t] == Opening(id)
  }

  ghost predicate BeingClosed(p: Plane, id: string) {
    exists t :: t in p.threads && p.threads[t] == Closing(id)
  }

  /** A dead agent has no grant under way, and holds its tuple only while a delete is to come. */
  ghost predicate Clean(p: Plane, id: string) {
    IsDead(p, id) ==> !BeingOpened(p, id) && (id in p.enabled ==> BeingClosed(p, id))
  }

  /** Being clean concerns revoked, completed and failed agents alone. */
  lemma CleanMeans(p: Plane, id: string)
    ensures Clean(p, id) <==>
            (id in p.status && p.status[id] in {Revoked, Completed, Failed} ==>
               && (forall t :: t in p.threads ==> p.threads[t] != Opening(id))
               && (id in p.enabled ==> exists t :: t in p.threads && p.threads[t] == Closing(id)))
  {
  }

  /** The step declares the agent dead under a half-done grant, declares it dead while it keeps a
      tuple nobody will delete, or fails the last delete it was waiting for. */
  ghost predicate Slips(p: Plane, s: Step, id: string) {
    match s
    case OpenWrite(_, _) => false
    case CloseWrite(_, i, _) => i == id && BeingOpened(p, id)
    case PatchWrite(i, st) => i == id && Dead(st) && (BeingOpened(p, id) || (id in p.enabled && !BeingClosed(p, id)))
    case TupleWrite(_, _) => false
    case TupleDelete(t, ok) =>
      && !ok && t in p.threads && p.threads[t] == Closing(id) && IsDead(p, id) && id in p.enabled
      && forall u :: u in p.threads && u != t ==> p.threads[u] != Closing(id)
  }

  lemma WriteKeepsCleanIff(p: Plane, s: Step, id: string)
    requires Clean(p, id) && Legal(p, s) && !s.TupleWrite? && !s.TupleDelete?
    ensures Clean(Apply(p, s), id) <==> !Slips(p, s, id)
  {
    var q := Apply(p, s);
    if !s.PatchWrite? {
      assert q.threads[s.thread] == if s.OpenWrite? then Opening(s.id) else Closing(s.id);
      assert forall t :: t in p.threads ==> t in q.threads && q.threads[t] == p.threads[t];
    }
  }

  lemma TupleCallKeepsCleanIff(p: Plane, s: Step, id: string)
    requires Clean(p, id) && Legal(p, s) && (s.TupleWrite? || s.TupleDelete?)
    ensures Clean(Apply(p, s), id) <==> !Slips(p, s, id)
  {
    var q := Apply(p, s);
    assert forall t :: t in q.threads <==> t in p.threads && t != s.thread;
    if p.threads[s.thread] != Closing(id) && BeingClosed(p, id) {
      var t :| t in p.threads && p.threads[t] == Closing(id);
      assert t in q.threads && q.threads[t] == Closing(id);
    }
  }

  /** Each step of any overlapping requests keeps an agent clean iff it is not a slip. */
  lemma StepKeepsCleanIff(p: Plane, s: Step, id: string)
    requires Clean(p, id) && Legal(p, s)
    ensures Clean(Apply(p, s), id) <==> !Slips(p, s, id)
  {
    if s.TupleWrite? || s.TupleDelete? { TupleCallKeepsCleanIff(p, s, id); } else { WriteKeepsCleanIff(p, s, id); }
  }

  ghost predicate NeverSlips(p: Plane, steps: seq<Step>, id: string)
    decreases |steps|
  {
    steps != [] ==> !Slips(p, steps[0], id) && NeverSlips(Apply(p, steps[0]), steps[1..], id)
  }

  ghost predicate CleanThroughout(p: Plane, steps: seq<Step>, id: string)
    decreases |steps|
  {
    Clean(p, id) && (steps != [] ==> CleanThroughout(Apply(p, steps[0]), steps[1..], id))
  }

  /** The authority theorem, exact over whole runs: an agent is clean in every state of a run iff
      no step of the run slips. */
  lemma {:induction false} CleanThroughoutIff(p: Plane, steps: seq<Step>, id: string)
    requires Clean(p, id) && LegalRun(p, steps)
    ensures CleanThroughout(p, steps, id) <==> NeverSlips(p, steps, id)
    ensures NeverSlips(p, steps, id) ==> Clean(Exec(p, steps), id)
    decreases |steps|
  {
    if steps != [] {
      StepKeepsCleanIff(p, steps[0], id);
      if !Slips(p, steps[0], id) { CleanThroughoutIff(Apply(p, steps[0]), steps[1..], id); }
    }
  }

  /** What makes an agent clean again after any mishap: it comes back to life, or a delete
      succeeds while no grant for it is half done. */
  ghost predicate Restores(p: Plane, s: Step, id: string) {
    || (s.OpenWrite? && s.id == id)
    || (s.PatchWrite? && s.id == id && !Dead(s.status))
    || (s.TupleDelete? && s.succeeds && s.thread in p.threads && p.threads[s.thread] == Closing(id) && !BeingOpened(p, id))
  }

  lemma RestoredIsClean(p: Plane, s: Step, id: string)
    requires Legal(p, s) && Restores(p, s, id)
    ensures Clean(Apply(p, s), id)
  {
  }

  /** One slip in full: a close that runs wholly inside an open leaves the agent dead and enabled,
      with nothing left in flight that would change it. */
  lemma OvertakenGrantLands(p: Plane, id: string, t1: nat, t2: nat, st: Status)
    requires t1 != t2 && t1 !in p.threads && t2 !in p.threads && Dead(st)
    ensures var steps := [OpenWrite(t1, id), CloseWrite(t2, id, st), TupleDelete(t2, true), TupleWrite(t1, true)];
            var q := Exec(p, steps);
            LegalRun(p, steps) && q.threads == p.threads && IsDead(q, id) && id in q.enabled
  {
    var s := [OpenWrite(t1, id), CloseWrite(t2, id, st), TupleDelete(t2, true), TupleWrite(t1, true)];
    var p1 := Apply(p, s[0]);
    var p2 := Apply(p1, s[1]);
    var p3 := Apply(p2, s[2]);
    var p4 := Apply(p3, s[3]);
    assert p3.threads == p.threads[t1 := Opening(id)];
    assert p4.threads == p.threads;
    assert s[1..][1..][1..][1..] == [];
    assert Exec(p4, []) == p4;
    assert Exec(p3, s[1..][1..][1..]) == p4;
    assert Exec(p2, s[1..][1..]) == p4;
    assert Exec(p1, s[1..]) == p4;
    assert LegalRun(p4, []) && LegalRun(p3, s[1..][1..][1..]);
    assert LegalRun(p2, s[1..][1..]);
    assert LegalRun(p1, s[1..]);
  }

  // At rest: exactly when a dead agent is left enabled, and how that can have come about.

  function At(p: Plane, steps: seq<Step>, i: nat): Plane
    requires i <= |steps|
  {
    Exec(p, steps[..i])
  }

  lemma {:induction false} AtNext(p: Plane, steps: seq<Step>, i: nat)
    requires i < |steps| && LegalRun(p, steps)
    ensures At(p, steps, i + 1) == Apply(At(p, steps, i), steps[i]) && Legal(At(p, steps, i), steps[i])
    decreases i
  {
    if i == 0 {
      assert steps[..1][0] == steps[0] && steps[..0] == [] && steps[..1][1..] == [];
      assert Exec(Apply(p, steps[0]), steps[..1][1..]) == Apply(p, steps[0]);
    } else {
      AtNext(Apply(p, steps[0]), steps[1..], i - 1);
      assert steps[..i][1..] == steps[1..][..i - 1] && steps[..i + 1][1..] == steps[1..][..i];
    }
  }

  /** Step `d` writes the agent's record. */
  predicate Records(steps: seq<Step>, d: nat, id: string) {
    d < |steps| && !steps[d].TupleWrite? && !steps[d].TupleDelete? && steps[d].id == id
  }

  function RecordedStatus(s: Step): Status
    requires !s.TupleWrite? && !s.TupleDelete?
  {
    if s.OpenWrite? then Active else s.status
  }

  /** Step `g` is a tuple call for the agent that takes effect. */
  predicate Calls(p: Plane, steps: seq<Step>, g: nat, id: string, grant: bool) {
    && g < |steps| && (if grant then steps[g].TupleWrite? else steps[g].TupleDelete?) && steps[g].succeeds
    && steps[g].thread in At(p, steps, g).threads
    && At(p, steps, g).threads[steps[g].thread] == if grant then Opening(id) else Closing(id)
  }

  ghost predicate LastRecord(steps: seq<Step>, d: nat, id: string, n: nat) {
    d < n && Records(steps, d, id) && forall e :: d < e < n ==> !Records(steps, e, id)
  }

  ghost predicate LastCall(p: Plane, steps: seq<Step>, g: nat, id: string, grant: bool, n: nat) {
    g < n && Calls(p, steps, g, id, grant) && forall e :: g < e < n ==> !Calls(p, steps, e, id, true) && !Calls(p, steps, e, id, false)
  }

  /** An agent unknown at the start is dead iff the last write of its record says so. */
  lemma {:induction false} DeadIff(p: Plane, steps: seq<Step>, id: string, n: nat)
    requires LegalRun(p, steps) && n <= |steps| && id !in p.status
    ensures IsDead(At(p, steps, n), id) <==> exists d: nat :: LastRecord(steps, d, id, n) && Dead(RecordedStatus(steps[d]))
    ensures id in At(p, steps, n).status ==>
              exists d: nat :: LastRecord(steps, d, id, n) && RecordedStatus(steps[d]) == At(p, steps, n).status[id]
    decreases n
  {
    if n == 0 {
      assert steps[..0] == [];
    } else {
      DeadIff(p, steps, id, n - 1);
      AtNext(p, steps, n - 1);
      if Records(steps, n - 1, id) {
        assert LastRecord(steps, n - 1, id, n);
      } else {
        assert forall d: nat :: LastRecord(steps, d, id, n) <==> LastRecord(steps, d, id, n - 1);
      }
    }
  }

  lemma OtherCallsDontCount(p: Plane, steps: seq<Step>, id: string, i: nat)
    requires LegalRun(p, steps) && i < |steps| && !Calls(p, steps, i, id, true) && !Calls(p, steps, i, id, false)
    ensures id in At(p, steps, i + 1).enabled <==> id in At(p, steps, i).enabled
  {
    AtNext(p, steps, i);
    var q, s := At(p, steps, i), steps[i];
    if (s.TupleWrite? || s.TupleDelete?) && s.succeeds { assert q.threads[s.thread].id != id; }
  }

  /** And enabled iff the last tuple call that took effect was a grant. */
  lemma {:induction false} EnabledIff(p: Plane, steps: seq<Step>, id: string, n: nat)
    requires LegalRun(p, steps) && n <= |steps| && id !in p.enabled
    ensures id in At(p, steps, n).enabled <==> exists g: nat :: LastCall(p, steps, g, id, true, n)
    decreases n
  {
    if n == 0 {
      assert steps[..0] == [];
    } else {
      EnabledIff(p, steps, id, n - 1);
      AtNext(p, steps, n - 1);
      if Calls(p, steps, n - 1, id, true) {
        assert LastCall(p, steps, n - 1, id, true, n);
      } else if !Calls(p, steps, n - 1, id, false) {
        var m: nat := n - 1;
        OtherCallsDontCount(p, steps, id, m);
        if g: nat :| LastCall(p, steps, g, id, true, m) { assert LastCall(p, steps, g, id, true, n); }
        if g: nat :| LastCall(p, steps, g, id, true, n) { assert LastCall(p, steps, g, id, true, m); }
      } else {
        assert forall g: nat :: g < n - 1 ==> !LastCall(p, steps, g, id, true, n);
      }
    }
  }

  ghost predicate Idle(p: Plane, id: string) {
    !BeingOpened(p, id) && !BeingClosed(p, id)
  }

  lemma {:induction false} CloseEnds(p: Plane, steps: seq<Step>, i: nat, t: nat, id: string) returns (e: nat)
    requires LegalRun(p, steps) && i <= |steps| && Idle(At(p, steps, |steps|), id)
    requires t in At(p, steps, i).threads && At(p, steps, i).threads[t] == Closing(id)
    ensures i <= e < |steps| && steps[e].TupleDelete? && steps[e].thread == t
    ensures t in At(p, steps, e).threads && At(p, steps, e).threads[t] == Closing(id)
    decreases |steps| - i
  {
    assert i < |steps|;
    AtNext(p, steps, i);
    e := i;
    if !(steps[i].TupleDelete? && steps[i].thread == t) { e := CloseEnds(p, steps, i + 1, t, id); }
  }

  lemma {:induction false} OpenBegan(p: Plane, steps: seq<Step>, g: nat, t: nat, id: string) returns (o: nat)
    requires LegalRun(p, steps) && g <= |steps| && Idle(p, id)
    requires t in At(p, steps, g).threads && At(p, steps, g).threads[t] == Opening(id)
    ensures o < g && steps[o] == OpenWrite(t, id)
    decreases g
  {
    assert steps[..0] == [];
    assert g > 0;
    AtNext(p, steps, g - 1);
    o := g - 1;
    if steps[g - 1] != OpenWrite(t, id) { o := OpenBegan(p, steps, g - 1, t, id); }
  }

  /** The last record write is a close whose delete failed, or a close that ran inside an open and
      whose delete came before that open's grant. */
  ghost predicate FailedOrOvertaken(p: Plane, steps: seq<Step>, d: nat, g: nat, id: string) {
    && d < |steps| && g < |steps| && steps[d].CloseWrite? && steps[g].TupleWrite?
    && exists e: nat ::
         && d < e < |steps| && steps[e].TupleDelete? && steps[e].thread == steps[d].thread
         && (steps[e].succeeds ==> e < g && exists o: nat :: o < d && steps[o] == OpenWrite(steps[g].thread, id))
  }

  /** The rest theorem: take any run at whose end no request on the agent is under way. The agent is
      then dead and enabled iff its last record write is a dead one and its last effective tuple call a
      grant; and that happens only if the dead status came by a PATCH that leaves the tuple alone, or
      by a close whose delete failed or was overtaken. */
  lemma DeadAndEnabledIff(p: Plane, steps: seq<Step>, id: string)
    requires LegalRun(p, steps) && id !in p.status && id !in p.enabled && Idle(p, id) && Idle(Exec(p, steps), id)
    ensures var n := |steps|;
            IsDead(Exec(p, steps), id) && id in Exec(p, steps).enabled <==>
            exists d: nat, g: nat :: LastRecord(steps, d, id, n) && Dead(RecordedStatus(steps[d])) && LastCall(p, steps, g, id, true, n)
    ensures forall d: nat, g: nat ::
              LastRecord(steps, d, id, |steps|) && Dead(RecordedStatus(steps[d])) && LastCall(p, steps, g, id, true, |steps|) ==>
                steps[d].PatchWrite? || FailedOrOvertaken(p, steps, d, g, id)
  {
    assert steps[..|steps|] == steps;
    DeadIff(p, steps, id, |steps|);
    EnabledIff(p, steps, id, |steps|);
    forall d: nat, g: nat |
      LastRecord(steps, d, id, |steps|) && Dead(RecordedStatus(steps[d])) && LastCall(p, steps, g, id, true, |steps|) && !steps[d].PatchWrite?
      ensures FailedOrOvertaken(p, steps, d, g, id)
    {
      HowItHappened(p, steps, d, g, id);
    }
  }

  lemma HowItHappened(p: Plane, steps: seq<Step>, d: nat, g: nat, id: string)
    requires LegalRun(p, steps) && Idle(p, id) && Idle(At(p, steps, |steps|), id)
    requires LastRecord(steps, d, id, |steps|) && Dead(RecordedStatus(steps[d])) && !steps[d].PatchWrite?
    requires LastCall(p, steps, g, id, true, |steps|)
    ensures FailedOrOvertaken(p, steps, d, g, id)
  {
    AtNext(p, steps, d);
    var t := steps[d].thread;
    assert At(p, steps, d + 1).threads[t] == Closing(id);
    var e := CloseEnds(p, steps, d + 1, t, id);
    var o := OpenBegan(p, steps, g, steps[g].thread, id);
    assert Records(steps, o, id);
    assert steps[e].succeeds ==> Calls(p, steps, e, id, false);
  }

  // The resource side.

  datatype Verdict = Allowed | Denied(member: string) | Fault

  /** work_on on a tenant: the template relation and the agent's own `enabled` tuple. */
  predicate WorkOn(relations: set<(string, string)>, enabled: set<string>, tenant: string, id: string) {
    (tenant, id) in relations && id in enabled
  }

  /** Every member of the delegation chain must hold work_on; the first that does not is
      named. A check for an id in `faults` errors. */
  method AuthorizeChain(
    relations: set<(string, string)>, enabled: set<string>, faults: set<string>, tenant: string, chain: seq<string>)
    returns (v: Verdict)
    ensures v == ChainVerdict(relations, enabled, faults, tenant, chain)
    ensures v.Allowed? <==> forall i :: 0 <= i < |chain| ==> Passes(relations, enabled, faults, tenant, chain[i])
  {
    AllowedNeedsEveryMember(relations, enabled, faults, tenant, chain);
    for i := 0 to |chain|
      invariant ChainVerdict(relations, enabled, faults, tenant, chain) == ChainVerdict(relations, enabled, faults, tenant, chain[i..])
    {
      var id := SpiffePath.Base(chain[i]);
      assert chain[i..][1..] == chain[i + 1..];
      if id in faults { return Fault; }
      if !WorkOn(relations, enabled, tenant, id) { return Denied(id); }
    }
    return Allowed;
  }

  function ChainVerdict(
    relations: set<(string, string)>, enabled: set<string>, faults: set<string>, tenant: string, chain: seq<string>): Verdict
  {
    if chain == [] then Allowed
    else
      var id := SpiffePath.Base(chain[0]);
      if id in faults then Fault
      else if !WorkOn(relations, enabled, tenant, id) then Denied(id)
      else ChainVerdict(relations, enabled, faults, tenant, chain[1..])
  }

  /** The check of member `i` neither errs nor fails: the agent has the tenant's relation and its own
      `enabled` tuple. */
  predicate Passes(relations: set<(string, string)>, enabled: set<string>, faults: set<string>, tenant: string, member: string) {
    var id := SpiffePath.Base(member);
    id !in faults && (tenant, id) in relations && id in enabled
  }

  lemma {:induction false} AllowedNeedsEveryMember(
    relations: set<(string, string)>, enabled: set<string>, faults: set<string>, tenant: string, chain: seq<string>)
    ensures ChainVerdict(relations, enabled, faults, tenant, chain).Allowed? <==>
            forall i :: 0 <= i < |chain| ==> Passes(relations, enabled, faults, tenant, chain[i])
    decreases |chain|
  {
    if chain != [] {
      AllowedNeedsEveryMember(relations, enabled, faults, tenant, chain[1..]);
      assert forall i :: 1 <= i < |chain| ==> chain[i] == chain[1..][i - 1];
    }
  }

  /** A verdict other than allowed is that of the first member that does not pass: a fault if its check
      errs, else a denial naming it. */
  lemma {:induction false} VerdictIsTheFirst(
    relations: set<(string, string)>, enabled: set<string>, faults: set<string>, tenant: string, chain: seq<string>, i: nat)
    requires i < |chain| && !Passes(relations, enabled, faults, tenant, chain[i])
    requires forall j :: 0 <= j < i ==> Passes(relations, enabled, faults, tenant, chain[j])
    ensures ChainVerdict(relations, enabled, faults, tenant, chain) ==
            if SpiffePath.Base(chain[i]) in faults then Fault else Denied(SpiffePath.Base(chain[i]))
    decreases i
  {
    if i > 0 {
      assert Passes(relations, enabled, faults, tenant, chain[0]);
      VerdictIsTheFirst(relations, enabled, faults, tenant, chain[1..], i - 1);
    }
  }

  /** After any run that never slips on it, a revoked, completed or failed agent not being closed denies every chain it is
      part of, on every tenant, whatever happened to the other agents. */
  lemma DeadMemberDeniesChain(
    p: Plane, steps: seq<Step>, relations: set<(string, string)>, faults: set<string>, tenant: string, chain: seq<string>, i: nat)
    requires LegalRun(p, steps) && i < |chain|
    requires var id, q := SpiffePath.Base(chain[i]), Exec(p, steps);
             && Clean(p, id) && NeverSlips(p, steps, id) && !BeingClosed(q, id)
             && id in q.status && (q.status[id] == Revoked || q.status[id] == Completed || q.status[id] == Failed)
    ensures !ChainVerdict(relations, Exec(p, steps).enabled, faults, tenant, chain).Allowed?
  {
    CleanThroughoutIff(p, steps, SpiffePath.Base(chain[i]));
    AllowedNeedsEveryMember(relations, Exec(p, steps).enabled, faults, tenant, chain);
  }

  /** A revoke changes no verdict for chains that avoid the agents it revoked. */
  lemma {:induction false} RevokeLeavesOtherChains(
    a: Authority, ids: set<string>, relations: set<(string, string)>, faults: set<string>, tenant: string, chain: seq<string>)
    requires forall i :: 0 <= i < |chain| ==> !Hit(a.fleet, ids, SpiffePath.Base(chain[i]))
    ensures ChainVerdict(relations, RevokeAll(a, ids).enabled, faults, tenant, chain) ==
            ChainVerdict(relations, a.enabled, faults, tenant, chain)
    decreases |chain|
  {
    if chain != [] {
      assert !Hit(a.fleet, ids, SpiffePath.Base(chain[0]));
      RevokeLeavesOtherChains(a, ids, relations, faults, tenant, chain[1..]);
    }
  }
}
