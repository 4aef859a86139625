/** The substrate agent: local workload CRs and org-scoped identity entries, driven by a lossy
    stream of spawn and kill frames and repaired by a level-triggered reconcile. */
module Substrate {
  import opened Common
  import opened Lineage
  import opened SpiffePath

  datatype Config = Config(trustDomain: string, org: string, namespace: string, serviceAccount: string)

  /** A registration entry. One id may hold several under different parents. */
  datatype Entry = Entry(spiffe: string, parent: string, selectors: seq<string>)

  /** `crs` gives the agentType of each local CR; `node` is the agent's own attested node. */
  datatype Local = Local(crs: map<string, string>, entries: set<Entry>, node: string)

  /** Agent ids on which each outside call fails. */
  datatype Faults = Faults(createEntry: set<string>, createCr: set<string>, deleteEntry: set<string>, deleteCr: set<string>, getCr: set<string>)

  const NO_FAULTS := Faults({}, {}, {}, {}, {})

  function Path(c: Config, agentType: string, id: string): Option<string> {
    BuildOrgAgentPath(c.trustDomain, c.org, agentType, id)
  }

  function Selectors(c: Config, id: string): seq<string> {
    ["k8s:ns:" + c.namespace, "k8s:pod-name:" + id + "-pod",
     "k8s:sa:" + if c.serviceAccount == "" then "default" else c.serviceAccount]
  }

  /** The selectors name one pod: they agree iff namespace, agent id and service account do, where no
      service account means the default one. */
  lemma SelectorsNameThePod(c: Config, d: Config, id: string, jd: string)
    ensures Selectors(c, id) == Selectors(d, jd) <==>
            && c.namespace == d.namespace && id == jd
            && (if c.serviceAccount == "" then "default" else c.serviceAccount) == (if d.serviceAccount == "" then "default" else d.serviceAccount)
    ensures "k8s:ns:" + c.namespace in Selectors(c, id) && "k8s:pod-name:" + id + "-pod" in Selectors(c, id)
    ensures c.serviceAccount == "" ==> "k8s:sa:" + "default" in Selectors(c, id)
    ensures c.serviceAccount != "" ==> "k8s:sa:" + c.serviceAccount in Selectors(c, id)
  {
    var s, t := Selectors(c, id), Selectors(d, jd);
    assert s[0][7..] == c.namespace && t[0][7..] == d.namespace;
    assert s[1][13..] == id + "-pod" && t[1][13..] == jd + "-pod";
    assert (id + "-pod")[..|id|] == id && (jd + "-pod")[..|jd|] == jd;
    assert s[2][7..] == (if c.serviceAccount == "" then "default" else c.serviceAccount);
    assert t[2][7..] == (if d.serviceAccount == "" then "default" else d.serviceAccount);
    assert s[0] in s && s[1] in s && s[2] in s;
  }

  function EntryFor(c: Config, node: string, agentType: string, id: string): Entry
    requires Path(c, agentType, id).Some?
  {
    Entry(Path(c, agentType, id).value, node, Selectors(c, id))
  }

  function WithoutPath(entries: set<Entry>, p: string): set<Entry> {
    set e | e in entries && e.spiffe != p
  }

  predicate ShouldRun(a: Agent) {
    !a.dismissed && !a.status.Completed? && !a.status.Failed?
  }

  // One item.

  /** Entry first, then the CR; a failed CR create tries to take the entry back. */
  function Materialized(c: Config, s: Local, agentType: string, id: string, f: Faults): Local {
    if Path(c, agentType, id).None? || id in f.createEntry then s
    else
      var entries := s.entries + {EntryFor(c, s.node, agentType, id)};
      if id !in f.createCr then s.(crs := if id in s.crs then s.crs else s.crs[id := agentType], entries := entries)
      else if id in f.deleteEntry then s.(entries := entries)
      else s.(entries := WithoutPath(entries, Path(c, agentType, id).value))
  }

  /** Entry first, then the CR. */
  function TornDown(c: Config, s: Local, id: string, f: Faults): Local {
    if id !in s.crs || Path(c, s.crs[id], id).None? || id in f.deleteEntry then s
    else
      var entries := WithoutPath(s.entries, Path(c, s.crs[id], id).value);
      if id in f.deleteCr then s.(entries := entries) else s.(crs := s.crs - {id}, entries := entries)
  }

  function Reasserted(c: Config, s: Local, agentType: string, id: string, f: Faults): Local {
    if Path(c, agentType, id).None? || id in f.createEntry then s
    else s.(entries := s.entries + {EntryFor(c, s.node, agentType, id)})
  }

  /** A rotate re-homes the agent on a new node and sweeps the entries under the old ones; a sweep that
      fails, wholly or in part, misses some of them and the connect goes on. */
  function Rotated(s: Local, node: string, missed: set<Entry>): Local {
    s.(entries := s.entries * missed, node := node)
  }

  // A whole reconcile pass.

  /** The should-run record of each id; when an id is listed twice the last one counts. */
  function WantOf(desired: seq<Agent>): map<string, Agent> {
    if desired == [] then map[]
    else
      var n := |desired| - 1;
      if ShouldRun(desired[n]) then WantOf(desired[..n])[desired[n].id := desired[n]] else WantOf(desired[..n])
  }

  lemma {:induction false} WantMeans(desired: seq<Agent>)
    ensures forall id :: id in WantOf(desired) ==>
              WantOf(desired)[id].id == id && WantOf(desired)[id] in desired && ShouldRun(WantOf(desired)[id])
    ensures forall a :: a in desired && ShouldRun(a) ==> a.id in WantOf(desired)
    decreases |desired|
  {
    if desired != [] {
      var n := |desired| - 1;
      WantMeans(desired[..n]);
      assert forall a :: a in desired <==> a in desired[..n] || a == desired[n];
    }
  }

  /** An id is wanted iff some listed record of it is neither dismissed, completed nor failed. */
  lemma WantedIff(desired: seq<Agent>, id: string)
    ensures id in WantOf(desired) <==>
            exists a :: a in desired && a.id == id && !a.dismissed && a.status != Completed && a.status != Failed
  {
    WantMeans(desired);
    if id in WantOf(desired) { assert WantOf(desired)[id] in desired; }
    forall a | a in desired && a.id == id && !a.dismissed && a.status != Completed && a.status != Failed ensures id in WantOf(desired) {
      assert ShouldRun(a);
    }
  }

  lemma {:induction false} LastOneCounts(desired: seq<Agent>, i: nat)
    requires i < |desired| && ShouldRun(desired[i])
    requires forall j :: i < j < |desired| && ShouldRun(desired[j]) ==> desired[j].id != desired[i].id
    ensures desired[i].id in WantOf(desired) && WantOf(desired)[desired[i].id] == desired[i]
    decreases |desired|
  {
    if i < |desired| - 1 { LastOneCounts(desired[..|desired| - 1], i); }
  }

  /** Kept but never created: a revoked record keeps an existing CR and gets no new one. */
  predicate Creates(desired: seq<Agent>, crs: map<string, string>, a: Agent) {
    a.id in WantOf(desired) && WantOf(desired)[a.id] == a && a.id !in crs && !a.status.Revoked?
  }

  /** The delta between desired records and local CRs, in any order. */
  ghost predicate IsDelta(desired: seq<Agent>, crs: map<string, string>, toCreate: seq<Agent>, toDelete: seq<string>) {
    && (forall a :: a in toCreate <==> Creates(desired, crs, a))
    && (forall id :: id in toDelete <==> id in crs && id !in WantOf(desired))
  }

  /** The records whose existing CR needs its entry re-asserted. */
  ghost predicate IsEnsure(desired: seq<Agent>, crs: map<string, string>, ensured: seq<Agent>) {
    forall a :: a in ensured <==> a in desired && ShouldRun(a) && a.id in crs
  }

  function EnsureEach(c: Config, s: Local, agents: seq<Agent>, f: Faults): Local {
    if agents == [] then s
    else
      var n := |agents| - 1;
      Reasserted(c, EnsureEach(c, s, agents[..n], f), agents[n].agentType, agents[n].id, f)
  }

  predicate Asserts(c: Config, node: string, a: Agent, f: Faults, e: Entry) {
    a.id !in f.createEntry && Path(c, a.agentType, a.id) == Some(e.spiffe) && e.parent == node && e.selectors == Selectors(c, a.id)
  }

  /** Re-asserting gives each of the agents its entry under the current node, unless its path cannot be
      spelled or the call failed; no entry goes, and no workload moves. */
  lemma {:induction false} EnsureIsExact(c: Config, s: Local, agents: seq<Agent>, f: Faults, e: Entry)
    ensures var t := EnsureEach(c, s, agents, f);
            && t.crs == s.crs && t.node == s.node
            && (e in t.entries <==> e in s.entries || exists a :: a in agents && Asserts(c, s.node, a, f, e))
    decreases |agents|
  {
    if agents != [] {
      var n := |agents| - 1;
      EnsureIsExact(c, s, agents[..n], f, e);
      assert forall a :: a in agents <==> a in agents[..n] || a == agents[n];
      var m := EnsureEach(c, s, agents[..n], f);
      assert e in Reasserted(c, m, agents[n].agentType, agents[n].id, f).entries <==> e in m.entries || Asserts(c, s.node, agents[n], f, e);
    }
  }

  function CreateEach(c: Config, s: Local, agents: seq<Agent>, f: Faults): Local {
    if agents == [] then s
    else
      var n := |agents| - 1;
      Materialized(c, CreateEach(c, s, agents[..n], f), agents[n].agentType, agents[n].id, f)
  }

  function DeleteEach(c: Config, s: Local, ids: seq<string>, f: Faults): Local {
    if ids == [] then s
    else
      var n := |ids| - 1;
      TornDown(c, DeleteEach(c, s, ids[..n], f), ids[n], f)
  }

  /** What one pass does with the lists it computed: every item is tried, whatever befell the
      others. */
  function Converged(c: Config, s: Local, ensured: seq<Agent>, toCreate: seq<Agent>, toDelete: seq<string>, f: Faults): Local {
    DeleteEach(c, CreateEach(c, EnsureEach(c, s, ensured, f), toCreate, f), toDelete, f)
  }

  method WantMap(desired: seq<Agent>) returns (want: map<string, Agent>)
    ensures want == WantOf(desired)
  {
    want := map[];
    for i := 0 to |desired|
      invariant want == WantOf(desired[..i])
    {
      assert desired[..i + 1][..i] == desired[..i];
      if ShouldRun(desired[i]) { want := want[desired[i].id := desired[i]]; }
    }
    assert desired[..|desired|] == desired;
  }

  /** Want-map and have-set, then the two differences. */
  method Reconcile(desired: seq<Agent>, crs: map<string, string>) returns (toCreate: seq<Agent>, toDelete: seq<string>)
    ensures IsDelta(desired, crs, toCreate, toDelete)
    ensures Distinct(toDelete)
  {
    var want := WantMap(desired);
    WantMeans(desired);
    toCreate, toDelete := [], [];
    var todo := want.Keys;
    while todo != {}
      invariant todo <= want.Keys
      invariant forall a :: a in toCreate <==> a.id in want && a.id !in todo && a == want[a.id] && a.id !in crs && !a.status.Revoked?
      decreases |todo|
    {
      var id :| id in todo;
      todo := todo - {id};
      if id in crs { continue; }
      if want[id].status == Revoked { continue; }
      toCreate := toCreate + [want[id]];
    }
    var have := crs.Keys;
    while have != {}
      invariant have <= crs.Keys
      invariant forall id :: id in toDelete <==> id in crs && id !in have && id !in want
      invariant Distinct(toDelete)
      decreases |have|
    {
      var id :| id in have;
      have := have - {id};
      if id !in want { toDelete := toDelete + [id]; }
    }
  }

  method EnsureEntryFor(desired: seq<Agent>, crs: map<string, string>) returns (ensured: seq<Agent>)
    ensures IsEnsure(desired, crs, ensured)
  {
    ensured := [];
    for i := 0 to |desired|
      invariant forall a :: a in ensured <==> a in desired[..i] && ShouldRun(a) && a.id in crs
    {
      if ShouldRun(desired[i]) && desired[i].id in crs { ensured := ensured + [desired[i]]; }
    }
    assert desired[..|desired|] == desired;
  }

  // The agent process.

  class SubstrateAgent {
    const cfg: Config
    var crs: map<string, string>
    var entries: set<Entry>
    var node: string

    constructor (c: Config, nodeId: string)
      ensures cfg == c && View() == Local(map[], {}, nodeId)
    {
      cfg := c;
      crs, entries, node := map[], {}, nodeId;
    }

    ghost function View(): Local
      reads this
    {
      Local(crs, entries, node)
    }

    method Materialize(agentType: string, id: string, f: Faults) returns (ok: bool)
      modifies this`crs, this`entries
      ensures View() == Materialized(cfg, old(View()), agentType, id, f)
      ensures ok <==> Path(cfg, agentType, id).Some? && id !in f.createEntry && id !in f.createCr
      ensures crs == if ok && id !in old(crs) then old(crs)[id := agentType] else old(crs)
      ensures ok ==> entries == old(entries) + {Entry(Path(cfg, agentType, id).value, node, Selectors(cfg, id))}
      ensures !ok && Path(cfg, agentType, id).Some? && id !in f.createEntry && id !in f.deleteEntry ==>
                forall e :: e in entries <==> e in old(entries) && e.spiffe != Path(cfg, agentType, id).value
      ensures Path(cfg, agentType, id).None? || id in f.createEntry ==> entries == old(entries)
    {
      var path := BuildOrgAgentPath(cfg.trustDomain, cfg.org, agentType, id);
      if path.None? || id in f.createEntry { return false; }
      entries := entries + {Entry(path.value, node, Selectors(cfg, id))};
      if id in f.createCr {
        if id !in f.deleteEntry { entries := set e | e in entries && e.spiffe != path.value; }
        return false;
      }
      if id !in crs { crs := crs[id := agentType]; }
      return true;
    }

    method Teardown(id: string, f: Faults) returns (ok: bool)
      requires id in crs
      modifies this`crs, this`entries
      ensures View() == TornDown(cfg, old(View()), id, f)
      ensures ok <==> Path(cfg, old(crs)[id], id).Some? && id !in f.deleteEntry && id !in f.deleteCr
      ensures crs == if ok then old(crs) - {id} else old(crs)
      ensures Path(cfg, old(crs)[id], id).Some? && id !in f.deleteEntry ==>
                forall e :: e in entries <==> e in old(entries) && e.spiffe != Path(cfg, old(crs)[id], id).value
      ensures Path(cfg, old(crs)[id], id).None? || id in f.deleteEntry ==> entries == old(entries)
    {
      var path := BuildOrgAgentPath(cfg.trustDomain, cfg.org, crs[id], id);
      if path.None? || id in f.deleteEntry { return false; }
      entries := set e | e in entries && e.spiffe != path.value;
      if id in f.deleteCr { return false; }
      crs := crs - {id};
      return true;
    }

    /** One pass, unless a listing fails. */
    method Converge(desired: seq<Agent>, listing: bool, ensureEntries: bool, f: Faults)
      returns (ok: bool, ghost ensured: seq<Agent>, ghost toCreate: seq<Agent>, ghost toDelete: seq<string>)
      modifies this`crs, this`entries
      ensures ok == listing && (!ok ==> View() == old(View()))
      ensures ok ==> IsDelta(desired, old(crs), toCreate, toDelete)
      ensures ok ==> if ensureEntries then IsEnsure(desired, old(crs), ensured) else ensured == []
      ensures ok ==> View() == Converged(cfg, old(View()), ensured, toCreate, toDelete, f)
    {
      ensured, toCreate, toDelete := [], [], [];
      if !listing { return false, ensured, toCreate, toDelete; }
      var creates, deletes := Reconcile(desired, crs);
      toCreate, toDelete := creates, deletes;
      if ensureEntries {
        var again := EnsureEntryFor(desired, crs);
        ensured := again;
        EnsureAll(again, f);
      }
      CreateAll(creates, f);
      DeleteAll(deletes, f);
      ok := true;
    }

    method EnsureAll(agents: seq<Agent>, f: Faults)
      modifies this`entries
      ensures View() == EnsureEach(cfg, old(View()), agents, f)
    {
      for i := 0 to |agents|
        invariant View() == EnsureEach(cfg, old(View()), agents[..i], f)
      {
        assert agents[..i + 1][..i] == agents[..i];
        var path := BuildOrgAgentPath(cfg.trustDomain, cfg.org, agents[i].agentType, agents[i].id);
        if path.None? { continue; }
        if agents[i].id !in f.createEntry { entries := entries + {Entry(path.value, node, Selectors(cfg, agents[i].id))}; }
      }
      assert agents[..|agents|] == agents;
    }

    method CreateAll(agents: seq<Agent>, f: Faults)
      modifies this`crs, this`entries
      ensures View() == CreateEach(cfg, old(View()), agents, f)
      ensures old(crs).Keys <= crs.Keys
    {
      for i := 0 to |agents|
        invariant View() == CreateEach(cfg, old(View()), agents[..i], f) && old(crs).Keys <= crs.Keys
      {
        assert agents[..i + 1][..i] == agents[..i];
        var ok := Materialize(agents[i].agentType, agents[i].id, f);
      }
      assert agents[..|agents|] == agents;
    }

    method DeleteAll(ids: seq<string>, f: Faults)
      requires Distinct(ids) && forall i :: 0 <= i < |ids| ==> ids[i] in crs
      modifies this`crs, this`entries
      ensures View() == DeleteEach(cfg, old(View()), ids, f)
    {
      for i := 0 to |ids|
        invariant View() == DeleteEach(cfg, old(View()), ids[..i], f)
        invariant forall k :: i <= k < |ids| ==> ids[k] in crs
      {
        assert ids[..i + 1][..i] == ids[..i];
        var ok := Teardown(ids[i], f);
      }
      assert ids[..|ids|] == ids;
    }

    method HandleSpawn(agentType: string, id: string, f: Faults)
      modifies this`crs, this`entries
      ensures View() == Materialized(cfg, old(View()), agentType, id, f)
    {
      var ok := Materialize(agentType, id, f);
    }

    method HandleKill(id: string, f: Faults)
      modifies this`crs, this`entries
      ensures View() == if id in f.getCr then old(View()) else TornDown(cfg, old(View()), id, f)
    {
      if id in f.getCr { return; }
      if id in crs { var ok := Teardown(id, f); }
    }
  }
}
