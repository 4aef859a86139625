/** What the suspension of an org means for its agents over whole runs, with every check-then-act
    gap open: who can still gain a tuple, and what the suspension cascade achieves while it and
    everything else runs node by node. */
module SuspendedOrg {
  import opened Lineage
  import opened Revocation
  import Cascade
  import opened LineageRuns

  /** A resume that passed its check and still has nodes of the org to act on. */
  ghost predicate ResumeCleared(w: World, t: nat, org: string) {
    && t in w.reqs.resumes && w.reqs.resumes[t].root in w.auth.fleet && w.auth.fleet[w.reqs.resumes[t].root].org == org
    && (w.reqs.resumes[t].Listed? ==> w.reqs.resumes[t].nodes != {})
  }

  predicate RegCleared(w: World, t: nat, org: string) {
    t in w.reqs.regs && w.reqs.regs[t].cleared && w.reqs.regs[t].Org() == org
  }

  predicate PreCleared(w: World, t: nat, org: string) {
    t in w.reqs.pres && w.reqs.pres[t].rec.org == org
  }

  /** Some request into the org passed its check before the suspension and has yet to act on it. */
  ghost predicate AlreadyCleared(w: World, org: string) {
    exists t :: RegCleared(w, t, org) || ResumeCleared(w, t, org) || PreCleared(w, t, org)
  }

  /** The step is the late write of a cleared registration or resume. */
  predicate LateGrant(w: World, s: Step, org: string, k: string) {
    || (s.RegWrite? && RegCleared(w, s.thread, org) && w.reqs.regs[s.thread].id == k)
    || (s.ResumeNode? && s.id == k && Resumes(w, s.thread, k) && k in w.auth.fleet && w.auth.fleet[k].status.Revoked?)
  }

  /** The step is the late store of a cleared preregistration, or the late write of a cleared
      registration of an unknown id. */
  predicate LateArrival(w: World, s: Step, org: string, k: string) {
    || (s.PreStore? && PreCleared(w, s.thread, org) && w.reqs.pres[s.thread].rec.id == k)
    || (s.RegWrite? && RegCleared(w, s.thread, org) && w.reqs.regs[s.thread].id == k && k !in w.auth.fleet)
  }

  lemma RegWriteGains(w: World, s: Step, org: string, k: string)
    requires Inv(w) && !Derails(w, s) && s.RegWrite?
    requires k in Apply(w, s).auth.fleet && Apply(w, s).auth.fleet[k].org == org
    ensures k !in w.auth.enabled ==> (k in Apply(w, s).auth.enabled <==> LateGrant(w, s, org, k))
    ensures k !in w.auth.fleet <==> LateArrival(w, s, org, k)
  {
  }

  lemma OthersGainNothing(w: World, s: Step, org: string, k: string)
    requires WellKeyed(w.auth.fleet) && !s.RegWrite? && !s.ResumeNode? && !s.PreStore?
    requires k in Apply(w, s).auth.fleet
    ensures k in w.auth.fleet && (k in Apply(w, s).auth.enabled ==> k in w.auth.enabled)
  {
  }

  lemma StoreGains(w: World, s: Step, org: string, k: string)
    requires Inv(w) && Legal(w, s) && s.PreStore?
    requires k in Apply(w, s).auth.fleet && Apply(w, s).auth.fleet[k].org == org
    ensures Apply(w, s).auth.enabled == w.auth.enabled && (k !in w.auth.fleet <==> LateArrival(w, s, org, k))
  {
  }

  lemma ResumeGains(w: World, s: Step, org: string, k: string)
    requires Inv(w) && s.ResumeNode? && k in Apply(w, s).auth.fleet
    ensures k in w.auth.fleet
    ensures k !in w.auth.enabled ==> (k in Apply(w, s).auth.enabled <==> LateGrant(w, s, org, k))
  {
  }

  /** A step gives an agent of the org a tuple iff it is a late grant, and adds an agent to the org iff
      it is a late arrival: nothing that checks the org while it is suspended can do either. */
  lemma SuspendedGainsIff(w: World, s: Step, org: string, k: string)
    requires Inv(w) && Legal(w, s) && !Derails(w, s)
    requires k in Apply(w, s).auth.fleet && Apply(w, s).auth.fleet[k].org == org
    ensures k !in w.auth.enabled ==> (k in Apply(w, s).auth.enabled <==> LateGrant(w, s, org, k))
    ensures k !in w.auth.fleet <==> LateArrival(w, s, org, k)
  {
    if s.RegWrite? {
      RegWriteGains(w, s, org, k);
    } else if s.ResumeNode? {
      ResumeGains(w, s, org, k);
    } else if s.PreStore? {
      StoreGains(w, s, org, k);
    } else {
      OthersGainNothing(w, s, org, k);
    }
  }

  // While the org stays suspended, no request is cleared for it.

  lemma NoRegCleared(w: World, s: Step, org: string, t: nat)
    requires org in w.suspended && RegCleared(Apply(w, s), t, org)
    ensures RegCleared(w, t, org)
  {
  }

  lemma NoPreCleared(w: World, s: Step, org: string, t: nat)
    requires org in w.suspended && PreCleared(Apply(w, s), t, org)
    ensures PreCleared(w, t, org)
  {
  }

  /** A resume under way was under way before with the same root, or has just been checked. */
  lemma ResumeComesFrom(w: World, s: Step, t: nat)
    requires t in Apply(w, s).reqs.resumes
    ensures var r := Apply(w, s).reqs.resumes[t];
            || (s == ResumeGuard(t, r.root) && r.Guarded? && r.root in w.auth.fleet && w.auth.fleet[r.root].org !in w.suspended)
            || (&& t in w.reqs.resumes && w.reqs.resumes[t].root == r.root
                && (w.reqs.resumes[t].Listed? ==> r.Listed? && r.nodes <= w.reqs.resumes[t].nodes))
  {
  }

  lemma NoResumeCleared(w: World, s: Step, org: string, t: nat)
    requires ResumesHold(w.auth.fleet, w.reqs) && FleetKept(w.auth.fleet, Apply(w, s).auth.fleet)
    requires org in w.suspended && ResumeCleared(Apply(w, s), t, org)
    ensures ResumeCleared(w, t, org)
  {
    ResumeComesFrom(w, s, t);
  }

  lemma NoneNewlyCleared(w: World, s: Step, org: string)
    requires Inv(w) && Kept(w, Apply(w, s)) && org in w.suspended && !AlreadyCleared(w, org)
    ensures !AlreadyCleared(Apply(w, s), org)
  {
    var v := Apply(w, s);
    forall t ensures !RegCleared(v, t, org) && !ResumeCleared(v, t, org) && !PreCleared(v, t, org) {
      if RegCleared(v, t, org) { NoRegCleared(w, s, org, t); }
      if PreCleared(v, t, org) { NoPreCleared(w, s, org, t); }
      if ResumeCleared(v, t, org) { NoResumeCleared(w, s, org, t); }
    }
  }

  /** Without a cleared request nothing late can happen to the org. */
  lemma NothingLate(w: World, s: Step, org: string, k: string)
    requires Inv(w) && !AlreadyCleared(w, org) && k in Apply(w, s).auth.fleet && Apply(w, s).auth.fleet[k].org == org
    requires Kept(w, Apply(w, s))
    ensures !LateGrant(w, s, org, k) && !LateArrival(w, s, org, k)
  {
    if s.ResumeNode? && Resumes(w, s.thread, k) { assert w.auth.fleet[k].org == org ==> ResumeCleared(w, s.thread, org); }
  }

  ghost predicate StaysSuspended(w: World, steps: seq<Step>, org: string)
    decreases |steps|
  {
    org in w.suspended && (steps != [] ==> StaysSuspended(Apply(w, steps[0]), steps[1..], org))
  }

  /** As long as an org stays suspended, and no request had been cleared for it before, none of its
      agents gains a tuple and it gains no agent, whatever else runs. */
  lemma {:induction false} SuspendedOrgGainsNothing(w: World, steps: seq<Step>, org: string)
    requires Inv(w) && LegalRun(w, steps) && NeverDerails(w, steps) && StaysSuspended(w, steps, org) && !AlreadyCleared(w, org)
    ensures var v := Exec(w, steps);
            forall k :: k in v.auth.fleet && v.auth.fleet[k].org == org ==>
              k in w.auth.fleet && (k in v.auth.enabled ==> k in w.auth.enabled)
    ensures !AlreadyCleared(Exec(w, steps), org)
    decreases |steps|
  {
    if steps != [] {
      var u := Apply(w, steps[0]);
      StepKeepsIff(w, steps[0]);
      NoneNewlyCleared(w, steps[0], org);
      SuspendedOrgGainsNothing(u, steps[1..], org);
      forall k | k in u.auth.fleet && u.auth.fleet[k].org == org
        ensures k in w.auth.fleet && (k in u.auth.enabled ==> k in w.auth.enabled)
      {
        SuspendedGainsIff(w, steps[0], org, k);
        NothingLate(w, steps[0], org, k);
      }
      LineageForever(u, steps[1..]);
      var v := Exec(u, steps[1..]);
      assert forall k :: k in v.auth.fleet && v.auth.fleet[k].org == org ==> k in u.auth.fleet && u.auth.fleet[k].org == org;
    }
  }

  /** The condition is needed: a resume that was checked before the suspension and acts after the
      whole cascade leaves its agent active and enabled inside the suspended org. */
  lemma LateResumeLands(w: World, t: nat, k: string, ids: set<string>)
    requires t !in w.reqs.resumes && k in w.auth.fleet && w.auth.fleet[k].org !in w.suspended && k in ids
    requires Revocable(w.auth.fleet[k].status) || w.auth.fleet[k].status.Revoked?
    ensures var org := w.auth.fleet[k].org;
            var steps := [ResumeGuard(t, k), ResumeList(t), SetSuspended(w.suspended + {org}), RevokeNodes(ids), ResumeNode(t, k)];
            var v := Exec(w, steps);
            && LegalRun(w, steps) && org in v.suspended
            && k in v.auth.fleet && v.auth.fleet[k].org == org && v.auth.fleet[k].status == Active && k in v.auth.enabled
  {
    var org := w.auth.fleet[k].org;
    var w2 := CheckedResume(w, t, k);
    LateWrite(w2, t, k, ids, w.suspended + {org});
    FiveSteps(w, ResumeGuard(t, k), ResumeList(t), SetSuspended(w.suspended + {org}), RevokeNodes(ids), ResumeNode(t, k));
  }

  lemma LateWrite(w: World, t: nat, k: string, ids: set<string>, orgs: set<string>)
    requires Resumes(w, t, k) && k in w.auth.fleet && k in ids && (Revocable(w.auth.fleet[k].status) || w.auth.fleet[k].status.Revoked?)
    ensures var v := Apply(Apply(Apply(w, SetSuspended(orgs)), RevokeNodes(ids)), ResumeNode(t, k));
            && v.suspended == orgs && k in v.auth.fleet && k in v.auth.enabled
            && v.auth.fleet[k] == w.auth.fleet[k].(status := Active)
  {
    var u := w.(suspended := orgs, auth := RevokeAll(w.auth, ids));
    assert u.auth.fleet[k] == w.auth.fleet[k].(status := Revoked) && Resumes(u, t, k);
  }

  lemma CheckedResume(w: World, t: nat, k: string) returns (w2: World)
    requires k in w.auth.fleet && w.auth.fleet[k].org !in w.suspended
    ensures w2 == Apply(Apply(w, ResumeGuard(t, k)), ResumeList(t)) == w.(reqs := w2.reqs) && Resumes(w2, t, k)
  {
    w2 := Apply(Apply(w, ResumeGuard(t, k)), ResumeList(t));
    Cascade.SelfUnder(w.auth.fleet, k);
    assert w2.reqs.resumes[t] == Listed(k, Cascade.Descendants(w.auth.fleet, k));
  }

  // The suspension cascade, node by node.

  lemma {:induction false} RunSplits(w: World, steps: seq<Step>, i: nat, org: string)
    requires i <= |steps| && Inv(w) && LegalRun(w, steps) && NeverDerails(w, steps) && StaysSuspended(w, steps, org)
    ensures var u := Exec(w, steps[..i]);
            && LegalRun(w, steps[..i]) && NeverDerails(w, steps[..i]) && StaysSuspended(w, steps[..i], org)
            && Inv(u) && LegalRun(u, steps[i..]) && NeverDerails(u, steps[i..]) && StaysSuspended(u, steps[i..], org)
            && Exec(u, steps[i..]) == Exec(w, steps)
    decreases i
  {
    if i == 0 {
      assert steps[..0] == [] && steps[0..] == steps;
    } else {
      StepKeepsIff(w, steps[0]);
      RunSplits(Apply(w, steps[0]), steps[1..], i - 1, org);
      assert steps[..i][0] == steps[0] && steps[..i][1..] == steps[1..][..i - 1] && steps[i..] == steps[1..][i - 1..];
    }
  }

  ghost predicate VisitsAt(steps: seq<Step>, j: nat, k: string) {
    j < |steps| && steps[j].RevokeNodes? && k in steps[j].ids
  }

  /** A revoke of `k` at any point of the run settles it: right after, `k` is enabled iff it was and in
      a status revoke does not touch; and if `k` is enabled at the end, both held. */
  lemma VisitSettles(w: World, steps: seq<Step>, org: string, j: nat, k: string)
    requires Inv(w) && LegalRun(w, steps) && NeverDerails(w, steps) && StaysSuspended(w, steps, org) && !AlreadyCleared(w, org)
    requires k in w.auth.fleet && w.auth.fleet[k].org == org && VisitsAt(steps, j, k)
    ensures var u := Exec(w, steps[..j]);
            && k in u.auth.fleet
            && (k in Apply(u, steps[j]).auth.enabled <==> k in u.auth.enabled && !Revocable(u.auth.fleet[k].status))
            && (k in Exec(w, steps).auth.enabled ==> k in w.auth.enabled && !Revocable(u.auth.fleet[k].status))
  {
    RunSplits(w, steps, j, org);
    LineageForever(w, steps[..j]);
    SuspendedOrgGainsNothing(w, steps[..j], org);
    assert steps[j..][0] == steps[j];
    RevokeSettles(Exec(w, steps[..j]), steps[j..], org, k);
  }

  lemma RevokeSettles(u: World, rest: seq<Step>, org: string, k: string)
    requires Inv(u) && LegalRun(u, rest) && NeverDerails(u, rest) && StaysSuspended(u, rest, org) && !AlreadyCleared(u, org)
    requires VisitsAt(rest, 0, k) && k in u.auth.fleet && u.auth.fleet[k].org == org
    ensures k in Apply(u, rest[0]).auth.enabled <==> k in u.auth.enabled && !Revocable(u.auth.fleet[k].status)
    ensures k in Exec(u, rest).auth.enabled ==> k in u.auth.enabled && !Revocable(u.auth.fleet[k].status)
  {
    var v := Apply(u, rest[0]);
    assert v.auth == RevokeAll(u.auth, rest[0].ids);
    StepKeepsIff(u, rest[0]);
    NoneNewlyCleared(u, rest[0], org);
    SuspendedOrgGainsNothing(v, rest[1..], org);
    LineageForever(v, rest[1..]);
  }

  /** The cascade as the code runs it: the agents are listed at the start; then, for each root it
      starts at, the subtree is read at some point of the run and every node read is visited later. */
  ghost predicate CascadeRuns(w: World, steps: seq<Step>, p: Agent -> bool) {
    forall r :: r in Cascade.Selected(w.auth.fleet, p) && Cascade.Started(w.auth.fleet[r], Cascade.Selected(w.auth.fleet, p)) ==>
      exists i: nat :: i <= |steps| && ReadAndVisited(w, steps, r, i)
  }

  ghost predicate ReadAndVisited(w: World, steps: seq<Step>, r: string, i: nat)
    requires i <= |steps|
  {
    forall k :: k in Cascade.Descendants(Exec(w, steps[..i]).auth.fleet, r) ==> exists j: nat :: i <= j && VisitsAt(steps, j, k)
  }

  lemma DescendantsStay(f: Fleet, g: Fleet, k: string, r: string)
    requires FleetKept(f, g) && r in f && k in Cascade.Descendants(f, r)
    ensures k in Cascade.Descendants(g, r)
  {
    assert r in Ancestors(f, k);
    assert r in Ancestors(g, k);
  }

  lemma CoveringRoot(f: Fleet, p: Agent -> bool, k: string) returns (r: string)
    requires WellKeyed(f) && Acyclic(f) && k in Cascade.Selected(f, p)
    ensures r in Cascade.Selected(f, p) && Cascade.Started(f[r], Cascade.Selected(f, p)) && k in Cascade.Descendants(f, r)
  {
    Cascade.SameScopeIsClosed(f, p);
    Cascade.AllSelectedCovered(f, p, p);
    r :| r in Cascade.Selected(f, p) && Cascade.Started(f[r], Cascade.Selected(f, p)) && Under(f, k, r);
  }

  lemma StillBelow(w: World, steps: seq<Step>, i: nat, org: string, k: string, r: string)
    requires i <= |steps| && Inv(w) && LegalRun(w, steps) && NeverDerails(w, steps) && StaysSuspended(w, steps, org)
    requires r in w.auth.fleet && k in Cascade.Descendants(w.auth.fleet, r)
    ensures k in Cascade.Descendants(Exec(w, steps[..i]).auth.fleet, r)
  {
    RunSplits(w, steps, i, org);
    LineageForever(w, steps[..i]);
    DescendantsStay(w.auth.fleet, Exec(w, steps[..i]).auth.fleet, k, r);
  }

  /** Each listed agent is visited, however the cascade interleaves with spawns and registrations. */
  lemma CascadeVisits(w: World, steps: seq<Step>, org: string, k: string) returns (j: nat)
    requires Inv(w) && LegalRun(w, steps) && NeverDerails(w, steps) && StaysSuspended(w, steps, org)
    requires CascadeRuns(w, steps, Cascade.InOrg(org)) && k in Cascade.Selected(w.auth.fleet, Cascade.InOrg(org))
    ensures VisitsAt(steps, j, k)
  {
    var r := CoveringRoot(w.auth.fleet, Cascade.InOrg(org), k);
    var i: nat :| i <= |steps| && ReadAndVisited(w, steps, r, i);
    StillBelow(w, steps, i, org, k, r);
    j :| i <= j && VisitsAt(steps, j, k);
  }

  /** The suspension theorem: with the org suspended and no request cleared before, run the cascade
      interleaved with anything. Every agent of the org listed at its start is visited, and is enabled
      at the end only if it already was and its status was one revoke leaves alone when visited. */
  lemma SuspensionHolds(w: World, steps: seq<Step>, org: string, k: string) returns (j: nat)
    requires Inv(w) && LegalRun(w, steps) && NeverDerails(w, steps) && StaysSuspended(w, steps, org) && !AlreadyCleared(w, org)
    requires CascadeRuns(w, steps, Cascade.InOrg(org)) && k in Cascade.Selected(w.auth.fleet, Cascade.InOrg(org))
    ensures VisitsAt(steps, j, k)
    ensures var u := Exec(w, steps[..j]);
            && k in u.auth.fleet
            && (k in Apply(u, steps[j]).auth.enabled <==> k in u.auth.enabled && !Revocable(u.auth.fleet[k].status))
            && (k in Exec(w, steps).auth.enabled ==> k in w.auth.enabled && !Revocable(u.auth.fleet[k].status))
  {
    j := CascadeVisits(w, steps, org, k);
    VisitSettles(w, steps, org, j, k);
  }
}
