/** The operator's stale sweep: agents are read first, workloads second, and every record of a
    workload-backed status without a workload is failed. Spawns, registrations, revokes and
    deletions run freely between the two reads. */
module StaleSweep {
  import opened Common
  import opened Lineage
  import opened Revocation
  import Runs = LineageRuns

  predicate Backed(st: Status) {
    st.Active? || st.AwaitingConsent? || st.Revoked?
  }

  predicate Orphan(a: Agent, live: set<string>) {
    a.placement.Kubernetes? && Backed(a.status) && a.id !in live
  }

  /** A failed list aborts the sweep; a failed PATCH (ids in `refused`) skips that agent. */
  method Sweep(agents: Option<seq<Agent>>, workloads: Option<seq<string>>, refused: set<string>) returns (swept: seq<string>)
    ensures agents.None? || workloads.None? ==> swept == []
    ensures agents.Some? && workloads.Some? ==>
              forall id :: id in swept <==>
                id !in refused && exists a :: a in agents.value && a.id == id && Orphan(a, Elements(workloads.value))
    ensures agents.Some? && workloads.Some? ==>
              forall id :: id in swept ==> id !in workloads.value && exists a ::
                a in agents.value && a.id == id && a.placement == Kubernetes && a.status in {Active, AwaitingConsent, Revoked}
  {
    swept := [];
    if agents.None? || workloads.None? { return; }
    var live: set<string> := {};
    for i := 0 to |workloads.value|
      invariant live == Elements(workloads.value[..i])
    {
      live := live + {workloads.value[i]};
    }
    assert workloads.value[..|workloads.value|] == workloads.value;
    for i := 0 to |agents.value|
      invariant forall id :: id in swept <==> id !in refused && exists a :: a in agents.value[..i] && a.id == id && Orphan(a, live)
    {
      var a := agents.value[i];
      assert agents.value[..i + 1] == agents.value[..i] + [a];
      assert forall b :: b in agents.value[..i + 1] <==> b in agents.value[..i] || b == a;
      if a.placement == Remote || a.placement == Substrate { continue; }
      if !(a.status.Active? || a.status.AwaitingConsent? || a.status.Revoked?) { continue; }
      if a.id in live || a.id in refused { continue; }
      swept := swept + [a.id];
    }
    assert agents.value[..|agents.value|] == agents.value;
  }

  /** Records and workload CRs. `made` and `deleted` are all CRs ever created and deleted, `cut` the
      agents that were revoked while still pending, and `outside` those that registered or reported a
      status before a CR was made for them, so from outside any pod of theirs. */
  datatype World = World(fleet: Fleet, made: set<string>, deleted: set<string>, cut: set<string>, outside: set<string>)

  function Live(w: World): set<string> {
    w.made - w.deleted
  }

  datatype Step =
    | Preregister(agent: Agent)
    | CreateCr(id: string)
    | DeleteCr(id: string)
    | SelfRegister(agent: Agent)
    | SidecarPatch(id: string, status: Status)
    | Terminate(id: string, status: Status)
    | Revoke(ids: set<string>)
    | Resume(ids: set<string>)
    | Dismiss(id: string)

  function Restatus(f: Fleet, id: string, st: Status): Fleet {
    if id in f then f[id := f[id].(status := st)] else f
  }

  function Reported(w: World, id: string): World {
    if id in w.made then w else w.(outside := w.outside + {id})
  }

  function Apply(w: World, e: Step): World {
    var f := w.fleet;
    match e
    case Preregister(a) => w.(fleet := f[a.id := a.(status := Pending, dismissed := false)])
    case CreateCr(id) => w.(made := w.made + {id})
    case DeleteCr(id) => if id in w.made then w.(deleted := w.deleted + {id}) else w
    case SelfRegister(a) =>
      if a.id !in f then
        Reported(w.(fleet := f[a.id := a.(status := Active, dismissed := false, org := "", placement := Kubernetes)]), a.id)
      else
        var e := f[a.id];
        if e.status.Completed? || e.status.Failed? || e.status.Revoked? then w
        else
          var b := a.(status := Active, dismissed := false, parent := e.parent, user := e.user, org := e.org, placement := e.placement);
          Reported(w.(fleet := f[a.id := b]), a.id)
    case SidecarPatch(id, st) => Reported(w.(fleet := Restatus(f, id, st)), id)
    case Terminate(id, st) => w.(fleet := Restatus(f, id, st))
    case Revoke(ids) =>
      w.(fleet := RevokeAll(Authority(f, {}), ids).fleet,
         cut := w.cut + set k | k in f && k in ids && f[k].status.Pending?)
    case Resume(ids) => w.(fleet := ResumeAll(Authority(f, {}), ids).fleet)
    case Dismiss(id) => if id in f then w.(fleet := f[id := f[id].(dismissed := true)]) else w
  }

  // The sweep's steps move the records exactly as the registry's own do over whole runs.

  lemma ReportsAsInRuns(w: World, x: Runs.World, id: string, st: Status)
    requires WellKeyed(w.fleet) && x.auth.fleet == w.fleet
    ensures Apply(w, SidecarPatch(id, st)).fleet == Apply(w, Terminate(id, st)).fleet == Runs.Apply(x, Runs.Patch(id, st)).auth.fleet
    ensures Apply(w, Dismiss(id)).fleet == Runs.Apply(x, Runs.Dismiss(id)).auth.fleet
  {
  }

  lemma VisitsAsInRuns(w: World, x: Runs.World, ids: set<string>)
    requires x.auth.fleet == w.fleet
    ensures Apply(w, Revoke(ids)).fleet == Runs.Apply(x, Runs.RevokeNodes(ids)).auth.fleet
    ensures Apply(w, Resume(ids)).fleet ==
            map k | k in w.fleet :: if k in ids && w.fleet[k].status == Revoked then w.fleet[k].(status := Active) else w.fleet[k]
  {
  }

  lemma RegistersAsInRuns(w: World, x: Runs.World, t: nat, a: Agent)
    requires WellKeyed(w.fleet) && x.auth.fleet == w.fleet && x.suspended == {} && t !in x.reqs.regs
    ensures var checked := Runs.Apply(Runs.Apply(x, Runs.RegRead(t, a.id)), Runs.RegGuard(t));
            Apply(w, SelfRegister(a)).fleet == Runs.Apply(checked, Runs.RegWrite(t, a.agentType, a.tenant, a.user, a.parent)).auth.fleet
  {
    Runs.UninterruptedRegistration(x, t, a.id, a.agentType, a.tenant, a.user, a.parent);
  }

  /** Ids are fresh and CR names are used once. The operator itself only writes terminal statuses. */
  predicate Legal(w: World, e: Step) {
    match e
    case Preregister(a) => a.id !in w.fleet && a.id !in w.made
    case CreateCr(id) => id !in w.made
    case Terminate(_, st) => st.Completed? || st.Failed?
    case _ => true
  }

  function Exec(w: World, steps: seq<Step>): World
    decreases |steps|
  {
    if steps == [] then w else Exec(Apply(w, steps[0]), steps[1..])
  }

  predicate LegalRun(w: World, steps: seq<Step>)
    decreases |steps|
  {
    steps != [] ==> Legal(w, steps[0]) && LegalRun(Apply(w, steps[0]), steps[1..])
  }

  const START := World(map[], {}, {}, {}, {})

  /** A workload-backed status on the platform implies a CR was made, unless the record left
      `pending` by being revoked, or something outside its pod spoke for it. */
  ghost predicate Inv(w: World) {
    && (forall k :: k in w.fleet ==> w.fleet[k].id == k)
    && (forall k :: k in w.fleet && w.fleet[k].placement.Kubernetes? && Backed(w.fleet[k].status) ==>
          k in w.made || k in w.cut || k in w.outside)
    && w.deleted <= w.made
  }

  lemma StepKeeps(w: World, e: Step)
    requires Inv(w) && Legal(w, e)
    ensures var v := Apply(w, e);
            Inv(v) && w.made <= v.made && w.deleted <= v.deleted && w.cut <= v.cut && w.outside <= v.outside
  {
    match e
    case Preregister(a) =>
    case CreateCr(id) =>
    case DeleteCr(id) =>
    case SelfRegister(a) =>
    case SidecarPatch(id, st) =>
    case Terminate(id, st) =>
    case Revoke(ids) =>
    case Resume(ids) =>
    case Dismiss(id) =>
  }

  lemma {:induction false} BackedHasBeenMade(w: World, steps: seq<Step>)
    requires Inv(w) && LegalRun(w, steps)
    ensures Inv(Exec(w, steps))
    ensures w.made <= Exec(w, steps).made && w.deleted <= Exec(w, steps).deleted
    ensures w.cut <= Exec(w, steps).cut && w.outside <= Exec(w, steps).outside
    decreases |steps|
  {
    if steps != [] {
      StepKeeps(w, steps[0]);
      BackedHasBeenMade(Apply(w, steps[0]), steps[1..]);
    }
  }

  /** What the sweep sees: the listed agents of the first world, the CRs of the second. */
  ghost predicate Swept(first: World, second: World, id: string) {
    id in first.fleet && !first.fleet[id].dismissed && Orphan(first.fleet[id], Live(second))
  }

  /** Agents first, workloads second: whatever runs before, between and around the two reads, the
      sweep fails an agent exactly when it is listed, placed on the platform, and active, awaiting
      consent or revoked, and its CR had been deleted by the second
      read, or by the first read it was revoked while pending or something outside had spoken for
      it, and it still has no CR by the second. */
  lemma SweepFailsExactly(before: seq<Step>, between: seq<Step>, id: string)
    requires LegalRun(START, before) && LegalRun(Exec(START, before), between)
    ensures var first := Exec(START, before);
            var second := Exec(first, between);
            Swept(first, second, id) <==>
              && id in first.fleet && !first.fleet[id].dismissed && first.fleet[id].placement == Kubernetes
              && first.fleet[id].status in {Active, AwaitingConsent, Revoked}
              && (id in second.deleted || ((id in first.cut || id in first.outside) && id !in second.made))
  {
    BackedHasBeenMade(START, before);
    BackedHasBeenMade(Exec(START, before), between);
  }

  const SAMPLE := Agent("a", "t", "", "u", Pending, false, "", "", Kubernetes)

  lemma RunOfThree(w: World, a: Step, b: Step, c: Step)
    requires Legal(w, a) && Legal(Apply(w, a), b) && Legal(Apply(Apply(w, a), b), c)
    ensures LegalRun(w, [a, b, c]) && Exec(w, [a, b, c]) == Apply(Apply(Apply(w, a), b), c)
  {
    var s := [a, b, c];
    var w1 := Apply(w, a);
    var w2 := Apply(w1, b);
    var w3 := Apply(w2, c);
    assert s[1..][1..][1..] == [];
    assert LegalRun(w3, s[1..][1..][1..]) && Exec(w3, s[1..][1..][1..]) == w3;
    assert LegalRun(w2, s[1..][1..]) && Exec(w2, s[1..][1..]) == w3;
    assert LegalRun(w1, s[1..]) && Exec(w1, s[1..]) == w3;
  }

  /** An agent whose workload is gone is failed. */
  lemma DeletedWorkloadIsFailed()
    ensures exists before: seq<Step>, between: seq<Step> ::
      && LegalRun(START, before) && LegalRun(Exec(START, before), between)
      && var first := Exec(START, before); var second := Exec(first, between);
         Swept(first, second, "a") && "a" in Live(first) && first.cut == {} && first.outside == {}
  {
    var s := [Preregister(SAMPLE), CreateCr("a"), SelfRegister(SAMPLE)];
    RunOfThree(START, s[0], s[1], s[2]);
    var first := Exec(START, s);
    var t := [DeleteCr("a"), Dismiss("b"), Dismiss("c")];
    RunOfThree(first, t[0], t[1], t[2]);
    assert Swept(first, Exec(first, t), "a");
  }

  /** Workloads first would fail a live agent whose spawn completes between the reads. */
  lemma SwappedReadsFailALiveAgent()
    ensures exists between: seq<Step>, id ::
      && LegalRun(START, between)
      && var later := Exec(START, between);
         Swept(later, START, id) && id in Live(later) && id !in later.cut
  {
    var s := [Preregister(SAMPLE), CreateCr("a"), SelfRegister(SAMPLE)];
    RunOfThree(START, s[0], s[1], s[2]);
    assert Swept(Exec(START, s), START, "a");
  }

  /** The other half of the condition is real too: an agent revoked while pending is failed before
      its CR appears, with nothing deleted. */
  lemma RevokedPendingIsFailed()
    ensures exists before: seq<Step> ::
      && LegalRun(START, before)
      && var w := Exec(START, before); Swept(w, w, "a") && w.deleted == {}
  {
    var s := [Preregister(SAMPLE), Revoke({"a"}), Dismiss("b")];
    RunOfThree(START, s[0], s[1], s[2]);
    assert Swept(Exec(START, s), Exec(START, s), "a");
  }

  /** And so is the third: an agent that registers on its own, from outside any pod, is failed with
      nothing deleted and nothing revoked. */
  lemma OutsiderIsFailed()
    ensures exists before: seq<Step> ::
      && LegalRun(START, before)
      && var w := Exec(START, before); Swept(w, w, "a") && w.deleted == {} && w.cut == {}
  {
    var s := [SelfRegister(SAMPLE), Dismiss("b"), Dismiss("c")];
    RunOfThree(START, s[0], s[1], s[2]);
    assert Swept(Exec(START, s), Exec(START, s), "a");
  }
}
