/** Convergence of the substrate over whole histories, faults included. `ty` gives the one agentType
    under which each id is known to the registry and dispatched. */
module SubstrateRuns {
  import opened Common
  import opened Lineage
  import opened SpiffePath
  import opened Substrate

  /** `e` is an entry of agent `id` under the agent's own org, and some node. */
  ghost predicate Owner(c: Config, ty: string -> string, id: string, e: Entry) {
    Path(c, ty(id), id).Some? && e == EntryFor(c, e.parent, ty(id), id)
  }

  /** The same, under the given node. */
  ghost predicate Own(c: Config, ty: string -> string, node: string, id: string, e: Entry) {
    Owner(c, ty, id, e) && e.parent == node
  }

  /** Every CR can be named and has the registry's type; every entry is some agent's own. */
  ghost predicate Tidy(c: Config, ty: string -> string, s: Local) {
    && (forall id :: id in s.crs ==> s.crs[id] == ty(id) && Path(c, ty(id), id).Some?)
    && (forall e :: e in s.entries ==> exists id :: Owner(c, ty, id, e))
  }

  /** An identity is left behind: an entry of the agent is there and its CR is not. */
  ghost predicate Stray(c: Config, ty: string -> string, s: Local, id: string) {
    id !in s.crs && exists e :: e in s.entries && Owner(c, ty, id, e)
  }

  /** Tidy with nothing left behind: every entry belongs to a CR. */
  ghost predicate Good(c: Config, ty: string -> string, s: Local) {
    Tidy(c, ty, s) && forall id :: !Stray(c, ty, s, id)
  }

  ghost predicate Typed(ty: string -> string, agents: seq<Agent>) {
    forall a :: a in agents ==> a.agentType == ty(a.id)
  }

  /** Different ids never share a path, so erasing one workload's identity spares the others. */
  lemma PathsApart(c: Config, ty: string -> string, id1: string, id2: string)
    requires Path(c, ty(id1), id1).Some? && id1 != id2
    ensures Path(c, ty(id1), id1) != Path(c, ty(id2), id2)
  {
    if Path(c, ty(id1), id1) == Path(c, ty(id2), id2) {
      BuiltIsInjective(c.trustDomain, c.org, ty(id1), id1, ty(id2), id2);
    }
  }

  // What one item does to each agent, under any faults.

  /** The one way to leave an identity behind: the entry is made for an agent without a CR, the CR
      is not, and taking the entry back fails too. */
  predicate Lingers(c: Config, ty: string -> string, s: Local, id: string, f: Faults) {
    Path(c, ty(id), id).Some? && id !in s.crs && id !in f.createEntry && id in f.createCr && id in f.deleteEntry
  }

  lemma MaterializeTidy(c: Config, ty: string -> string, s: Local, id: string, f: Faults)
    requires Tidy(c, ty, s)
    ensures Tidy(c, ty, Materialized(c, s, ty(id), id, f))
  {
    var t := Materialized(c, s, ty(id), id, f);
    forall e | e in t.entries ensures exists k :: Owner(c, ty, k, e) {
      if e !in s.entries { assert Owner(c, ty, id, e); }
    }
  }

  lemma MaterializeStray(c: Config, ty: string -> string, s: Local, id: string, f: Faults, k: string)
    requires k == id ==> !Stray(c, ty, s, k) || Lingers(c, ty, s, k, f)
    ensures Stray(c, ty, Materialized(c, s, ty(id), id, f), k) <==> if k == id then Lingers(c, ty, s, k, f) else Stray(c, ty, s, k)
  {
    var t := Materialized(c, s, ty(id), id, f);
    if k != id && Path(c, ty(k), k).Some? {
      PathsApart(c, ty, k, id);
      assert forall e :: Owner(c, ty, k, e) ==> (e in t.entries <==> e in s.entries);
    } else if k == id && Lingers(c, ty, s, k, f) {
      assert Owner(c, ty, k, EntryFor(c, s.node, ty(k), k));
    }
  }

  lemma TeardownTidy(c: Config, ty: string -> string, s: Local, id: string, f: Faults)
    requires Tidy(c, ty, s)
    ensures Tidy(c, ty, TornDown(c, s, id, f))
  {
  }

  lemma TeardownStray(c: Config, ty: string -> string, s: Local, id: string, f: Faults, k: string)
    requires Tidy(c, ty, s)
    ensures Stray(c, ty, TornDown(c, s, id, f), k) <==> Stray(c, ty, s, k)
  {
    if k != id && Path(c, ty(k), k).Some? {
      PathsApart(c, ty, k, id);
      assert forall e :: Owner(c, ty, k, e) ==> (e in TornDown(c, s, id, f).entries <==> e in s.entries);
    }
  }

  /** A spawn, whatever fails in it, keeps the substrate good iff it does not linger. */
  lemma MaterializeKeepsGoodIff(c: Config, ty: string -> string, s: Local, id: string, f: Faults)
    requires Good(c, ty, s)
    ensures Good(c, ty, Materialized(c, s, ty(id), id, f)) <==> !Lingers(c, ty, s, id, f)
  {
    MaterializeTidy(c, ty, s, id, f);
    forall k ensures Stray(c, ty, Materialized(c, s, ty(id), id, f), k) <==> k == id && Lingers(c, ty, s, k, f) {
      MaterializeStray(c, ty, s, id, f, k);
    }
  }

  /** A teardown, whatever fails in it, leaves nothing behind. */
  lemma TeardownKeepsGood(c: Config, ty: string -> string, s: Local, id: string, f: Faults)
    requires Good(c, ty, s)
    ensures Good(c, ty, TornDown(c, s, id, f))
  {
    TeardownTidy(c, ty, s, id, f);
    forall k ensures !Stray(c, ty, TornDown(c, s, id, f), k) {
      TeardownStray(c, ty, s, id, f, k);
    }
  }

  // A whole pass, under any faults.

  lemma {:induction false} EnsureEachTidy(c: Config, ty: string -> string, s: Local, agents: seq<Agent>, f: Faults)
    requires Tidy(c, ty, s) && Typed(ty, agents) && forall a :: a in agents ==> a.id in s.crs
    ensures var t := EnsureEach(c, s, agents, f);
            && Tidy(c, ty, t) && t.crs == s.crs && t.node == s.node
            && forall k :: Stray(c, ty, t, k) <==> Stray(c, ty, s, k)
    decreases |agents|
  {
    if agents != [] {
      var n := |agents| - 1;
      var a := agents[n];
      assert a in agents;
      EnsureEachTidy(c, ty, s, agents[..n], f);
      var m, t := EnsureEach(c, s, agents[..n], f), EnsureEach(c, s, agents, f);
      forall e | e in t.entries ensures exists k :: Owner(c, ty, k, e) {
        if e !in m.entries { assert Owner(c, ty, a.id, e); }
      }
      forall k | k !in s.crs && Path(c, ty(k), k).Some? ensures Stray(c, ty, t, k) <==> Stray(c, ty, m, k) {
        PathsApart(c, ty, k, a.id);
        assert forall e :: Owner(c, ty, k, e) ==> (e in t.entries <==> e in m.entries);
      }
    }
  }

  lemma {:induction false} CreateEachTidy(c: Config, ty: string -> string, s: Local, agents: seq<Agent>, f: Faults)
    requires Tidy(c, ty, s) && Typed(ty, agents)
    ensures var t := CreateEach(c, s, agents, f);
            && Tidy(c, ty, t) && t.node == s.node && s.crs.Keys <= t.crs.Keys
            && forall k :: k in f.createCr ==> (k in t.crs <==> k in s.crs)
    decreases |agents|
  {
    if agents != [] {
      var n := |agents| - 1;
      assert agents[n] in agents;
      CreateEachTidy(c, ty, s, agents[..n], f);
      MaterializeTidy(c, ty, CreateEach(c, s, agents[..n], f), agents[n].id, f);
    }
  }

  lemma {:induction false} CreateEachStray(c: Config, ty: string -> string, s: Local, agents: seq<Agent>, f: Faults, k: string)
    requires Tidy(c, ty, s) && Typed(ty, agents) && !Stray(c, ty, s, k)
    ensures Stray(c, ty, CreateEach(c, s, agents, f), k) <==> Lingers(c, ty, s, k, f) && exists a :: a in agents && a.id == k
    decreases |agents|
  {
    if agents != [] {
      var n := |agents| - 1;
      assert agents[n] in agents && forall a :: a in agents <==> a in agents[..n] || a == agents[n];
      var m := CreateEach(c, s, agents[..n], f);
      CreateEachStray(c, ty, s, agents[..n], f, k);
      CreateEachTidy(c, ty, s, agents[..n], f);
      assert Lingers(c, ty, s, k, f) <==> Lingers(c, ty, m, k, f);
      MaterializeStray(c, ty, m, agents[n].id, f, k);
    }
  }

  lemma {:induction false} DeleteEachTidy(c: Config, ty: string -> string, s: Local, ids: seq<string>, f: Faults, k: string)
    requires Tidy(c, ty, s)
    ensures var t := DeleteEach(c, s, ids, f);
            Tidy(c, ty, t) && t.node == s.node && (Stray(c, ty, t, k) <==> Stray(c, ty, s, k))
    decreases |ids|
  {
    if ids != [] {
      var n := |ids| - 1;
      DeleteEachTidy(c, ty, s, ids[..n], f, k);
      TeardownTidy(c, ty, DeleteEach(c, s, ids[..n], f), ids[n], f);
      TeardownStray(c, ty, DeleteEach(c, s, ids[..n], f), ids[n], f, k);
    }
  }

  /** The lists of a pass agree with the substrate they were computed for. */
  ghost predicate PassLists(desired: seq<Agent>, crs: map<string, string>, ensured: seq<Agent>, toCreate: seq<Agent>, toDelete: seq<string>) {
    IsDelta(desired, crs, toCreate, toDelete) && (ensured == [] || IsEnsure(desired, crs, ensured))
  }

  lemma ListsAreTyped(
    ty: string -> string, desired: seq<Agent>, crs: map<string, string>, ensured: seq<Agent>, toCreate: seq<Agent>, toDelete: seq<string>)
    requires Typed(ty, desired) && PassLists(desired, crs, ensured, toCreate, toDelete)
    ensures Typed(ty, ensured) && Typed(ty, toCreate)
    ensures (forall a :: a in ensured ==> a.id in crs) && forall a :: a in toCreate ==> a.id !in crs
  {
    WantMeans(desired);
  }

  lemma PassKeepsTidy(
    c: Config, ty: string -> string, s: Local, desired: seq<Agent>, ensured: seq<Agent>, toCreate: seq<Agent>, toDelete: seq<string>, f: Faults)
    requires Tidy(c, ty, s) && Typed(ty, desired) && PassLists(desired, s.crs, ensured, toCreate, toDelete)
    ensures Tidy(c, ty, Converged(c, s, ensured, toCreate, toDelete, f)) && Converged(c, s, ensured, toCreate, toDelete, f).node == s.node
  {
    ListsAreTyped(ty, desired, s.crs, ensured, toCreate, toDelete);
    EnsureEachTidy(c, ty, s, ensured, f);
    var e := EnsureEach(c, s, ensured, f);
    CreateEachTidy(c, ty, e, toCreate, f);
    DeleteEachTidy(c, ty, CreateEach(c, e, toCreate, f), toDelete, f, "");
  }

  lemma PassStray(
    c: Config, ty: string -> string, s: Local,
    desired: seq<Agent>, ensured: seq<Agent>, toCreate: seq<Agent>, toDelete: seq<string>, f: Faults, k: string)
    requires Tidy(c, ty, s) && Typed(ty, desired) && PassLists(desired, s.crs, ensured, toCreate, toDelete) && !Stray(c, ty, s, k)
    ensures Stray(c, ty, Converged(c, s, ensured, toCreate, toDelete, f), k) <==> Lingers(c, ty, s, k, f) && exists a :: a in toCreate && a.id == k
  {
    ListsAreTyped(ty, desired, s.crs, ensured, toCreate, toDelete);
    EnsureEachTidy(c, ty, s, ensured, f);
    var e := EnsureEach(c, s, ensured, f);
    CreateEachTidy(c, ty, e, toCreate, f);
    CreateEachStray(c, ty, e, toCreate, f, k);
    DeleteEachTidy(c, ty, CreateEach(c, e, toCreate, f), toDelete, f, k);
  }

  /** A pass, whatever fails in it, keeps the substrate good iff none of its creates lingers. */
  lemma PassKeepsGoodIff(
    c: Config, ty: string -> string, s: Local, desired: seq<Agent>, ensured: seq<Agent>, toCreate: seq<Agent>, toDelete: seq<string>, f: Faults)
    requires Good(c, ty, s) && Typed(ty, desired) && PassLists(desired, s.crs, ensured, toCreate, toDelete)
    ensures Good(c, ty, Converged(c, s, ensured, toCreate, toDelete, f)) <==> forall a :: a in toCreate ==> !Lingers(c, ty, s, a.id, f)
  {
    PassKeepsTidy(c, ty, s, desired, ensured, toCreate, toDelete, f);
    var t := Converged(c, s, ensured, toCreate, toDelete, f);
    forall k ensures Stray(c, ty, t, k) <==> Lingers(c, ty, s, k, f) && exists a :: a in toCreate && a.id == k {
      PassStray(c, ty, s, desired, ensured, toCreate, toDelete, f, k);
    }
    forall a | a in toCreate && Lingers(c, ty, s, a.id, f) ensures Stray(c, ty, t, a.id) {
    }
  }

  // Faults are isolated.

  /** The two substrates hold the same of agent `id`: its CR, and every entry on its path. */
  ghost predicate Same(c: Config, ty: string -> string, s: Local, t: Local, id: string) {
    && s.node == t.node && (id in s.crs <==> id in t.crs) && (id in s.crs ==> s.crs[id] == t.crs[id])
    && forall e: Entry :: Path(c, ty(id), id) == Some(e.spiffe) ==> (e in s.entries <==> e in t.entries)
  }

  ghost predicate TypedCrs(ty: string -> string, s: Local) {
    forall id :: id in s.crs ==> s.crs[id] == ty(id)
  }

  /** No outside call on behalf of this agent fails. */
  predicate Spared(f: Faults, id: string) {
    id !in f.createEntry && id !in f.createCr && id !in f.deleteEntry && id !in f.deleteCr
  }

  lemma CreateItemIsolated(c: Config, ty: string -> string, s: Local, t: Local, i: string, f: Faults, id: string)
    requires Same(c, ty, s, t, id) && TypedCrs(ty, s) && TypedCrs(ty, t) && Spared(f, id)
    ensures var p, q := Materialized(c, s, ty(i), i, f), Materialized(c, t, ty(i), i, NO_FAULTS);
            Same(c, ty, p, q, id) && TypedCrs(ty, p) && TypedCrs(ty, q)
  {
    if i != id && Path(c, ty(id), id).Some? { PathsApart(c, ty, id, i); }
  }

  lemma EnsureItemIsolated(c: Config, ty: string -> string, s: Local, t: Local, i: string, f: Faults, id: string)
    requires Same(c, ty, s, t, id) && Spared(f, id)
    ensures Same(c, ty, Reasserted(c, s, ty(i), i, f), Reasserted(c, t, ty(i), i, NO_FAULTS), id)
  {
    if i != id && Path(c, ty(id), id).Some? { PathsApart(c, ty, id, i); }
  }

  lemma DeleteItemIsolated(c: Config, ty: string -> string, s: Local, t: Local, i: string, f: Faults, id: string)
    requires Same(c, ty, s, t, id) && TypedCrs(ty, s) && TypedCrs(ty, t) && Spared(f, id)
    ensures var p, q := TornDown(c, s, i, f), TornDown(c, t, i, NO_FAULTS);
            Same(c, ty, p, q, id) && TypedCrs(ty, p) && TypedCrs(ty, q)
  {
    if i != id && Path(c, ty(id), id).Some? { PathsApart(c, ty, id, i); }
  }

  lemma {:induction false} EnsureIsolated(c: Config, ty: string -> string, s: Local, agents: seq<Agent>, f: Faults, id: string)
    requires TypedCrs(ty, s) && Typed(ty, agents) && Spared(f, id)
    ensures var p, q := EnsureEach(c, s, agents, f), EnsureEach(c, s, agents, NO_FAULTS);
            Same(c, ty, p, q, id) && TypedCrs(ty, p) && TypedCrs(ty, q)
    decreases |agents|
  {
    if agents != [] {
      var n := |agents| - 1;
      assert agents[n] in agents;
      EnsureIsolated(c, ty, s, agents[..n], f, id);
      EnsureItemIsolated(c, ty, EnsureEach(c, s, agents[..n], f), EnsureEach(c, s, agents[..n], NO_FAULTS), agents[n].id, f, id);
    }
  }

  lemma {:induction false} CreateIsolated(c: Config, ty: string -> string, s: Local, t: Local, agents: seq<Agent>, f: Faults, id: string)
    requires Same(c, ty, s, t, id) && TypedCrs(ty, s) && TypedCrs(ty, t) && Typed(ty, agents) && Spared(f, id)
    ensures var p, q := CreateEach(c, s, agents, f), CreateEach(c, t, agents, NO_FAULTS);
            Same(c, ty, p, q, id) && TypedCrs(ty, p) && TypedCrs(ty, q)
    decreases |agents|
  {
    if agents != [] {
      var n := |agents| - 1;
      assert agents[n] in agents;
      CreateIsolated(c, ty, s, t, agents[..n], f, id);
      CreateItemIsolated(c, ty, CreateEach(c, s, agents[..n], f), CreateEach(c, t, agents[..n], NO_FAULTS), agents[n].id, f, id);
    }
  }

  lemma {:induction false} DeleteIsolated(c: Config, ty: string -> string, s: Local, t: Local, ids: seq<string>, f: Faults, id: string)
    requires Same(c, ty, s, t, id) && TypedCrs(ty, s) && TypedCrs(ty, t) && Spared(f, id)
    ensures var p, q := DeleteEach(c, s, ids, f), DeleteEach(c, t, ids, NO_FAULTS);
            Same(c, ty, p, q, id) && TypedCrs(ty, p) && TypedCrs(ty, q)
    decreases |ids|
  {
    if ids != [] {
      var n := |ids| - 1;
      DeleteIsolated(c, ty, s, t, ids[..n], f, id);
      DeleteItemIsolated(c, ty, DeleteEach(c, s, ids[..n], f), DeleteEach(c, t, ids[..n], NO_FAULTS), ids[n], f, id);
    }
  }

  /** One failure does not stall the rest: an agent none of whose own calls fails ends a pass exactly
      as it would have ended a pass without any fault. */
  lemma FaultsAreIsolated(
    c: Config, ty: string -> string, s: Local,
    desired: seq<Agent>, ensured: seq<Agent>, toCreate: seq<Agent>, toDelete: seq<string>, f: Faults, id: string)
    requires TypedCrs(ty, s) && Typed(ty, desired) && PassLists(desired, s.crs, ensured, toCreate, toDelete) && Spared(f, id)
    ensures Same(c, ty, Converged(c, s, ensured, toCreate, toDelete, f), Converged(c, s, ensured, toCreate, toDelete, NO_FAULTS), id)
  {
    ListsAreTyped(ty, desired, s.crs, ensured, toCreate, toDelete);
    EnsureIsolated(c, ty, s, ensured, f, id);
    var p, q := EnsureEach(c, s, ensured, f), EnsureEach(c, s, ensured, NO_FAULTS);
    CreateIsolated(c, ty, p, q, toCreate, f, id);
    DeleteIsolated(c, ty, CreateEach(c, p, toCreate, f), CreateEach(c, q, toCreate, NO_FAULTS), toDelete, f, id);
  }

  // The pass without faults.

  /** The ids that should end up with a CR: should-run records that can be named, except
      revoked ones that had none. */
  ghost function Target(c: Config, desired: seq<Agent>, had: set<string>): set<string> {
    set id | id in WantOf(desired) && Path(c, WantOf(desired)[id].agentType, id).Some? && (WantOf(desired)[id].status.Revoked? ==> id in had)
  }

  /** CRs for exactly `ids`, and for each exactly its own entry. */
  ghost function Settled(c: Config, ty: string -> string, node: string, ids: set<string>): Local {
    Local(map id | id in ids :: ty(id),
          set id | id in ids && Path(c, ty(id), id).Some? :: EntryFor(c, node, ty(id), id),
          node)
  }

  /** The entries a pass does not account for: those left behind without a CR, and those a failed
      sweep left under another node although the CR stays. */
  ghost function Residue(c: Config, ty: string -> string, s: Local, target: set<string>): set<Entry> {
    set e | e in s.entries && exists id :: Unaccounted(c, ty, s, target, id, e)
  }

  ghost predicate Unaccounted(c: Config, ty: string -> string, s: Local, target: set<string>, id: string, e: Entry) {
    Owner(c, ty, id, e) && (id !in s.crs || (id in target && e.parent != s.node))
  }

  /** No entry is under another node. */
  ghost predicate Current(s: Local) {
    forall e :: e in s.entries ==> e.parent == s.node
  }

  lemma NeatHasNoResidue(c: Config, ty: string -> string, s: Local, target: set<string>)
    requires Good(c, ty, s) && Current(s)
    ensures Residue(c, ty, s, target) == {}
  {
    forall e, id | e in s.entries && Owner(c, ty, id, e) ensures !Unaccounted(c, ty, s, target, id, e) {
      assert id !in s.crs ==> Stray(c, ty, s, id);
    }
  }

  ghost predicate Among(c: Config, ty: string -> string, node: string, agents: seq<Agent>, e: Entry) {
    exists a :: a in agents && Own(c, ty, node, a.id, e)
  }

  ghost predicate Creating(c: Config, ty: string -> string, agents: seq<Agent>, id: string) {
    Path(c, ty(id), id).Some? && exists a :: a in agents && a.id == id
  }

  lemma {:induction false} EnsureClean(c: Config, ty: string -> string, s: Local, agents: seq<Agent>)
    requires Typed(ty, agents)
    ensures var t := EnsureEach(c, s, agents, NO_FAULTS);
            t.crs == s.crs && t.node == s.node && forall e :: e in t.entries <==> e in s.entries || Among(c, ty, s.node, agents, e)
    decreases |agents|
  {
    if agents != [] {
      var n := |agents| - 1;
      assert agents[n] in agents && forall a :: a in agents <==> a in agents[..n] || a == agents[n];
      EnsureClean(c, ty, s, agents[..n]);
      assert forall e :: Among(c, ty, s.node, agents, e) <==> Among(c, ty, s.node, agents[..n], e) || Own(c, ty, s.node, agents[n].id, e);
    }
  }

  lemma {:induction false} CreateClean(c: Config, ty: string -> string, s: Local, agents: seq<Agent>)
    requires Typed(ty, agents) && TypedCrs(ty, s)
    ensures var t := CreateEach(c, s, agents, NO_FAULTS);
            && t.node == s.node && TypedCrs(ty, t)
            && (forall id :: id in t.crs <==> id in s.crs || Creating(c, ty, agents, id))
            && forall e :: e in t.entries <==> e in s.entries || Among(c, ty, s.node, agents, e)
    decreases |agents|
  {
    if agents != [] {
      var n := |agents| - 1;
      assert agents[n] in agents && forall a :: a in agents <==> a in agents[..n] || a == agents[n];
      CreateClean(c, ty, s, agents[..n]);
      assert forall e :: Among(c, ty, s.node, agents, e) <==> Among(c, ty, s.node, agents[..n], e) || Own(c, ty, s.node, agents[n].id, e);
      assert forall id :: Creating(c, ty, agents, id) <==> Creating(c, ty, agents[..n], id) || (id == agents[n].id && Path(c, ty(id), id).Some?);
    }
  }

  /** The entry is on the path of a workload being deleted. */
  ghost predicate OnPath(c: Config, ty: string -> string, crs: map<string, string>, ids: seq<string>, e: Entry) {
    exists i :: i in ids && i in crs && Path(c, ty(i), i) == Some(e.spiffe)
  }

  lemma {:induction false} DeleteClean(c: Config, ty: string -> string, s: Local, ids: seq<string>)
    requires forall id :: id in s.crs ==> s.crs[id] == ty(id) && Path(c, ty(id), id).Some?
    ensures var t := DeleteEach(c, s, ids, NO_FAULTS);
            && t.node == s.node && (forall id :: id in t.crs ==> t.crs[id] == ty(id))
            && (forall id :: id in t.crs <==> id in s.crs && id !in ids)
            && forall e :: e in t.entries <==> e in s.entries && !OnPath(c, ty, s.crs, ids, e)
    decreases |ids|
  {
    if ids != [] {
      var n := |ids| - 1;
      assert forall i :: i in ids <==> i in ids[..n] || i == ids[n];
      DeleteClean(c, ty, s, ids[..n]);
      assert forall e :: OnPath(c, ty, s.crs, ids, e) <==>
        OnPath(c, ty, s.crs, ids[..n], e) || (ids[n] in s.crs && Path(c, ty(ids[n]), ids[n]) == Some(e.spiffe));
    }
  }

  /** The three parts together. */
  lemma CleanPass(
    c: Config, ty: string -> string, s: Local, desired: seq<Agent>, ensured: seq<Agent>, toCreate: seq<Agent>, toDelete: seq<string>)
    requires Tidy(c, ty, s) && Typed(ty, desired) && PassLists(desired, s.crs, ensured, toCreate, toDelete)
    ensures var t := Converged(c, s, ensured, toCreate, toDelete, NO_FAULTS);
            && t.node == s.node && TypedCrs(ty, t)
            && (forall id :: id in t.crs <==> (id in s.crs || Creating(c, ty, toCreate, id)) && id !in toDelete)
            && forall e :: e in t.entries <==> Ends(c, ty, s, ensured, toCreate, toDelete, e)
  {
    ListsAreTyped(ty, desired, s.crs, ensured, toCreate, toDelete);
    EnsureClean(c, ty, s, ensured);
    var m := EnsureEach(c, s, ensured, NO_FAULTS);
    CreateClean(c, ty, m, toCreate);
    var u := CreateEach(c, m, toCreate, NO_FAULTS);
    DeleteClean(c, ty, u, toDelete);
    assert forall e :: OnPath(c, ty, u.crs, toDelete, e) <==> OnPath(c, ty, s.crs, toDelete, e);
  }

  lemma SettledCrs(
    c: Config, ty: string -> string, s: Local, desired: seq<Agent>, ensured: seq<Agent>, toCreate: seq<Agent>, toDelete: seq<string>)
    requires Tidy(c, ty, s) && Typed(ty, desired) && PassLists(desired, s.crs, ensured, toCreate, toDelete)
    ensures Converged(c, s, ensured, toCreate, toDelete, NO_FAULTS).crs == Settled(c, ty, s.node, Target(c, desired, s.crs.Keys)).crs
  {
    CleanPass(c, ty, s, desired, ensured, toCreate, toDelete);
    WantMeans(desired);
    var t, want := Converged(c, s, ensured, toCreate, toDelete, NO_FAULTS), WantOf(desired);
    forall id ensures id in t.crs <==> id in Target(c, desired, s.crs.Keys) {
      if id in want {
        assert want[id].agentType == ty(id);
        assert Creates(desired, s.crs, want[id]) <==> want[id] in toCreate;
      }
    }
  }

  lemma NotOnPath(c: Config, ty: string -> string, s: Local, toDelete: seq<string>, id: string, e: Entry)
    requires Owner(c, ty, id, e) && (id !in s.crs || id !in toDelete)
    ensures !OnPath(c, ty, s.crs, toDelete, e)
  {
    forall i | i in toDelete && i in s.crs ensures Path(c, ty(i), i) != Some(e.spiffe) {
      PathsApart(c, ty, id, i);
    }
  }

  /** Every targeted agent has its entry asserted or made. */
  lemma TargetIsAmong(
    c: Config, ty: string -> string, s: Local,
    desired: seq<Agent>, ensured: seq<Agent>, toCreate: seq<Agent>, toDelete: seq<string>, id: string)
    requires Typed(ty, desired) && IsDelta(desired, s.crs, toCreate, toDelete) && IsEnsure(desired, s.crs, ensured)
    requires id in Target(c, desired, s.crs.Keys)
    ensures id !in toDelete && Path(c, ty(id), id).Some?
    ensures Among(c, ty, s.node, if id in s.crs then ensured else toCreate, EntryFor(c, s.node, ty(id), id))
  {
    WantMeans(desired);
    var a := WantOf(desired)[id];
    assert a in desired && a.agentType == ty(id);
    assert Creates(desired, s.crs, a) <==> a in toCreate;
    assert Own(c, ty, s.node, a.id, EntryFor(c, s.node, ty(id), id));
  }

  /** Every agent whose entry is asserted, made, or belongs to a CR that stays is targeted. */
  lemma AmongIsTarget(
    c: Config, ty: string -> string, s: Local,
    desired: seq<Agent>, ensured: seq<Agent>, toCreate: seq<Agent>, toDelete: seq<string>, id: string)
    requires Typed(ty, desired) && IsDelta(desired, s.crs, toCreate, toDelete) && IsEnsure(desired, s.crs, ensured)
    requires Path(c, ty(id), id).Some?
    requires (id in s.crs && id !in toDelete) || exists a :: (a in ensured || a in toCreate) && a.id == id
    ensures id in Target(c, desired, s.crs.Keys)
  {
    WantMeans(desired);
    if a :| a in toCreate && a.id == id { assert Creates(desired, s.crs, a); }
    assert id in WantOf(desired) && WantOf(desired)[id].agentType == ty(id);
  }

  lemma InSettled(c: Config, ty: string -> string, node: string, ids: set<string>, id: string, e: Entry)
    requires id in ids && Own(c, ty, node, id, e)
    ensures e in Settled(c, ty, node, ids).entries
  {
  }

  /** What the clean pass keeps or makes, as CleanPass describes it. */
  ghost predicate Ends(c: Config, ty: string -> string, s: Local, ensured: seq<Agent>, toCreate: seq<Agent>, toDelete: seq<string>, e: Entry) {
    && (e in s.entries || Among(c, ty, s.node, ensured, e) || Among(c, ty, s.node, toCreate, e))
    && !OnPath(c, ty, s.crs, toDelete, e)
  }

  lemma ResidueEnds(
    c: Config, ty: string -> string, s: Local, desired: seq<Agent>, ensured: seq<Agent>, toCreate: seq<Agent>, toDelete: seq<string>, e: Entry)
    requires Typed(ty, desired) && IsDelta(desired, s.crs, toCreate, toDelete) && IsEnsure(desired, s.crs, ensured)
    requires e in Residue(c, ty, s, Target(c, desired, s.crs.Keys))
    ensures Ends(c, ty, s, ensured, toCreate, toDelete, e)
  {
    var id :| Unaccounted(c, ty, s, Target(c, desired, s.crs.Keys), id, e);
    if id in s.crs { TargetIsAmong(c, ty, s, desired, ensured, toCreate, toDelete, id); }
    NotOnPath(c, ty, s, toDelete, id, e);
  }

  lemma TargetEnds(
    c: Config, ty: string -> string, s: Local, desired: seq<Agent>, ensured: seq<Agent>, toCreate: seq<Agent>, toDelete: seq<string>, e: Entry)
    requires Typed(ty, desired) && IsDelta(desired, s.crs, toCreate, toDelete) && IsEnsure(desired, s.crs, ensured)
    requires e in Settled(c, ty, s.node, Target(c, desired, s.crs.Keys)).entries
    ensures Ends(c, ty, s, ensured, toCreate, toDelete, e)
  {
    var id :| id in Target(c, desired, s.crs.Keys) && Path(c, ty(id), id).Some? && e == EntryFor(c, s.node, ty(id), id);
    TargetIsAmong(c, ty, s, desired, ensured, toCreate, toDelete, id);
    assert Owner(c, ty, id, e);
    NotOnPath(c, ty, s, toDelete, id, e);
  }

  lemma EndsSettled(
    c: Config, ty: string -> string, s: Local,
    desired: seq<Agent>, ensured: seq<Agent>, toCreate: seq<Agent>, toDelete: seq<string>, e: Entry)
    requires Tidy(c, ty, s) && Typed(ty, desired) && IsDelta(desired, s.crs, toCreate, toDelete) && IsEnsure(desired, s.crs, ensured)
    requires Ends(c, ty, s, ensured, toCreate, toDelete, e) && e !in Residue(c, ty, s, Target(c, desired, s.crs.Keys))
    ensures e in Settled(c, ty, s.node, Target(c, desired, s.crs.Keys)).entries
  {
    if Among(c, ty, s.node, ensured, e) {
      var a :| a in ensured && Own(c, ty, s.node, a.id, e);
      AmongIsTarget(c, ty, s, desired, ensured, toCreate, toDelete, a.id);
      InSettled(c, ty, s.node, Target(c, desired, s.crs.Keys), a.id, e);
    } else if Among(c, ty, s.node, toCreate, e) {
      var a :| a in toCreate && Own(c, ty, s.node, a.id, e);
      AmongIsTarget(c, ty, s, desired, ensured, toCreate, toDelete, a.id);
      InSettled(c, ty, s.node, Target(c, desired, s.crs.Keys), a.id, e);
    } else {
      var id :| Owner(c, ty, id, e);
      var target := Target(c, desired, s.crs.Keys);
      assert !Unaccounted(c, ty, s, target, id, e);
      assert id in toDelete ==> OnPath(c, ty, s.crs, toDelete, e);
      AmongIsTarget(c, ty, s, desired, ensured, toCreate, toDelete, id);
      InSettled(c, ty, s.node, Target(c, desired, s.crs.Keys), id, e);
    }
  }

  /** One fault-free reconcile-on-connect, from any tidy state whatever history produced it, lands on
      a state that depends only on the desired records, the node, and which revoked agents still had
      a CR, next to exactly the entries left behind by earlier faults. */
  lemma ConvergeSettles(
    c: Config, ty: string -> string, s: Local, desired: seq<Agent>, ensured: seq<Agent>, toCreate: seq<Agent>, toDelete: seq<string>)
    requires Tidy(c, ty, s) && Typed(ty, desired)
    requires IsDelta(desired, s.crs, toCreate, toDelete) && IsEnsure(desired, s.crs, ensured)
    ensures var target := Target(c, desired, s.crs.Keys);
            var settled := Settled(c, ty, s.node, target);
            Converged(c, s, ensured, toCreate, toDelete, NO_FAULTS) == settled.(entries := settled.entries + Residue(c, ty, s, target))
  {
    SettledCrs(c, ty, s, desired, ensured, toCreate, toDelete);
    CleanPass(c, ty, s, desired, ensured, toCreate, toDelete);
    var t, settled := Converged(c, s, ensured, toCreate, toDelete, NO_FAULTS), Settled(c, ty, s.node, Target(c, desired, s.crs.Keys));
    forall e | e in t.entries ensures e in settled.entries + Residue(c, ty, s, Target(c, desired, s.crs.Keys)) {
      if e !in Residue(c, ty, s, Target(c, desired, s.crs.Keys)) { EndsSettled(c, ty, s, desired, ensured, toCreate, toDelete, e); }
    }
    forall e | e in settled.entries + Residue(c, ty, s, Target(c, desired, s.crs.Keys)) ensures e in t.entries {
      if e in settled.entries {
        TargetEnds(c, ty, s, desired, ensured, toCreate, toDelete, e);
      } else {
        ResidueEnds(c, ty, s, desired, ensured, toCreate, toDelete, e);
      }
    }
  }

  /** A second pass finds nothing to do: no teardown, and nothing to create except records
      whose identity cannot be spelled. */
  lemma SecondPassIsIdle(c: Config, ty: string -> string, s: Local, desired: seq<Agent>, toCreate: seq<Agent>, toDelete: seq<string>)
    requires Typed(ty, desired)
    requires IsDelta(desired, Settled(c, ty, s.node, Target(c, desired, s.crs.Keys)).crs, toCreate, toDelete)
    ensures forall id :: id !in toDelete
    ensures forall a :: a in toCreate ==> Path(c, a.agentType, a.id).None?
  {
    WantMeans(desired);
    var target := Target(c, desired, s.crs.Keys);
    forall a | a in toCreate ensures Path(c, a.agentType, a.id).None? {
      assert Creates(desired, Settled(c, ty, s.node, target).crs, a);
    }
  }

  /** Why the types must agree: an entry asserted under the record's type outlives the teardown
      of a CR made under another type, and only then. */
  lemma TeardownErasesIffTypesAgree(c: Config, s: Local, recordType: string, id: string)
    requires id in s.crs && Path(c, s.crs[id], id).Some? && Path(c, recordType, id).Some?
    requires EntryFor(c, s.node, recordType, id) in s.entries
    ensures EntryFor(c, s.node, recordType, id) !in TornDown(c, s, id, NO_FAULTS).entries <==> s.crs[id] == recordType
  {
    if Path(c, s.crs[id], id) == Path(c, recordType, id) {
      BuiltIsInjective(c.trustDomain, c.org, s.crs[id], id, recordType, id);
    }
  }

  // Histories.

  /** What can happen to the substrate. A lost frame or a pass whose listing fails is no event at
      all; any call inside an event may fail. */
  datatype Event =
    | SpawnFrame(id: string, faults: Faults)
    | KillFrame(id: string, faults: Faults)
    | Rotate(node: string, missed: set<Entry>)
    | Pass(desired: seq<Agent>, ensured: seq<Agent>, toCreate: seq<Agent>, toDelete: seq<string>, faults: Faults)

  ghost function Apply(c: Config, ty: string -> string, s: Local, e: Event): Local {
    match e
    case SpawnFrame(id, f) => Materialized(c, s, ty(id), id, f)
    case KillFrame(id, f) => if id in f.getCr then s else TornDown(c, s, id, f)
    case Rotate(node, missed) => Rotated(s, node, missed)
    case Pass(_, ensured, toCreate, toDelete, f) => Converged(c, s, ensured, toCreate, toDelete, f)
  }

  ghost predicate Legal(ty: string -> string, s: Local, e: Event) {
    e.Pass? ==> Typed(ty, e.desired) && PassLists(e.desired, s.crs, e.ensured, e.toCreate, e.toDelete)
  }

  ghost function Exec(c: Config, ty: string -> string, s: Local, events: seq<Event>): Local
    decreases |events|
  {
    if events == [] then s else Exec(c, ty, Apply(c, ty, s, events[0]), events[1..])
  }

  ghost predicate LegalRun(c: Config, ty: string -> string, s: Local, events: seq<Event>)
    decreases |events|
  {
    events != [] ==> Legal(ty, s, events[0]) && LegalRun(c, ty, Apply(c, ty, s, events[0]), events[1..])
  }

  /** A kill frame on whose agent no call fails leaves neither the workload nor any entry on its path;
      when its workload cannot be read it does nothing. */
  lemma KillErases(c: Config, ty: string -> string, s: Local, id: string, f: Faults)
    requires Good(c, ty, s)
    ensures id in f.getCr ==> Apply(c, ty, s, KillFrame(id, f)) == s
    ensures var t := Apply(c, ty, s, KillFrame(id, f));
            id !in f.getCr && id !in f.deleteEntry && id !in f.deleteCr ==>
              id !in t.crs && forall e :: e in t.entries ==> !Owner(c, ty, id, e)
  {
    if id !in s.crs { assert !Stray(c, ty, s, id); }
  }

  /** The event leaves an identity behind. */
  ghost predicate LeavesBehind(c: Config, ty: string -> string, s: Local, e: Event) {
    || (e.SpawnFrame? && Lingers(c, ty, s, e.id, e.faults))
    || (e.Pass? && exists a :: a in e.toCreate && Lingers(c, ty, s, a.id, e.faults))
  }

  lemma EventKeepsTidy(c: Config, ty: string -> string, s: Local, e: Event)
    requires Tidy(c, ty, s) && Legal(ty, s, e)
    ensures Tidy(c, ty, Apply(c, ty, s, e))
  {
    match e
    case SpawnFrame(id, f) => MaterializeTidy(c, ty, s, id, f);
    case KillFrame(id, f) => TeardownTidy(c, ty, s, id, f);
    case Rotate(_, _) =>
    case Pass(desired, ensured, toCreate, toDelete, f) => PassKeepsTidy(c, ty, s, desired, ensured, toCreate, toDelete, f);
  }

  /** A rotate reclaims what was left behind iff its sweep misses none of it. */
  lemma RotateReclaimsIff(c: Config, ty: string -> string, s: Local, node: string, missed: set<Entry>)
    requires Tidy(c, ty, s)
    ensures Good(c, ty, Rotated(s, node, missed)) <==>
            forall e, id :: e in s.entries && e in missed && Owner(c, ty, id, e) ==> id in s.crs
  {
    var t := Rotated(s, node, missed);
    assert Tidy(c, ty, t);
    if forall e, id :: e in s.entries && e in missed && Owner(c, ty, id, e) ==> id in s.crs {
      assert forall id :: !Stray(c, ty, t, id);
    }
    forall e, id | e in s.entries && e in missed && Owner(c, ty, id, e) && id !in s.crs ensures Stray(c, ty, t, id) {
      assert e in t.entries;
    }
  }

  /** Each event, whatever fails in it, keeps the substrate good iff it leaves nothing behind. */
  lemma EventKeepsGoodIff(c: Config, ty: string -> string, s: Local, e: Event)
    requires Good(c, ty, s) && Legal(ty, s, e)
    ensures Good(c, ty, Apply(c, ty, s, e)) <==> !LeavesBehind(c, ty, s, e)
  {
    match e
    case SpawnFrame(id, f) => MaterializeKeepsGoodIff(c, ty, s, id, f);
    case KillFrame(id, f) => TeardownKeepsGood(c, ty, s, id, f);
    case Rotate(node, missed) =>
      RotateReclaimsIff(c, ty, s, node, missed);
      assert forall x, id :: x in s.entries && Owner(c, ty, id, x) && id !in s.crs ==> Stray(c, ty, s, id);
    case Pass(desired, ensured, toCreate, toDelete, f) => PassKeepsGoodIff(c, ty, s, desired, ensured, toCreate, toDelete, f);
  }

  // Entries under the current node.

  lemma {:induction false} PassCurrent(c: Config, s: Local, ensured: seq<Agent>, toCreate: seq<Agent>, toDelete: seq<string>, f: Faults)
    requires Current(s)
    ensures Current(Converged(c, s, ensured, toCreate, toDelete, f)) && Converged(c, s, ensured, toCreate, toDelete, f).node == s.node
    decreases |ensured| + |toCreate| + |toDelete|
  {
    if toDelete != [] {
      PassCurrent(c, s, ensured, toCreate, toDelete[..|toDelete| - 1], f);
    } else if toCreate != [] {
      PassCurrent(c, s, ensured, toCreate[..|toCreate| - 1], [], f);
    } else if ensured != [] {
      PassCurrent(c, s, ensured[..|ensured| - 1], [], [], f);
    }
  }

  /** The event is a rotate whose sweep misses an entry under another node. */
  ghost predicate LeavesStale(s: Local, e: Event) {
    e.Rotate? && exists x :: x in s.entries && x in e.missed && x.parent != e.node
  }

  lemma EventKeepsCurrentIff(c: Config, ty: string -> string, s: Local, e: Event)
    requires Current(s)
    ensures Current(Apply(c, ty, s, e)) <==> !LeavesStale(s, e)
  {
    if e.Pass? { PassCurrent(c, s, e.ensured, e.toCreate, e.toDelete, e.faults); }
  }

  /** Nothing left behind, and nothing under another node. */
  ghost predicate Neat(c: Config, ty: string -> string, s: Local) {
    Good(c, ty, s) && Current(s)
  }

  ghost predicate NeverSoils(c: Config, ty: string -> string, s: Local, events: seq<Event>)
    decreases |events|
  {
    events != [] ==>
      && !LeavesBehind(c, ty, s, events[0]) && !LeavesStale(s, events[0])
      && NeverSoils(c, ty, Apply(c, ty, s, events[0]), events[1..])
  }

  ghost predicate NeatThroughout(c: Config, ty: string -> string, s: Local, events: seq<Event>)
    decreases |events|
  {
    Neat(c, ty, s) && (events != [] ==> NeatThroughout(c, ty, Apply(c, ty, s, events[0]), events[1..]))
  }

  /** Exact again: every state is neat iff no event leaves an identity behind or misses a stale one. */
  lemma {:induction false} HistoryKeepsNeatIff(c: Config, ty: string -> string, s: Local, events: seq<Event>)
    requires Neat(c, ty, s) && LegalRun(c, ty, s, events)
    ensures NeatThroughout(c, ty, s, events) <==> NeverSoils(c, ty, s, events)
    ensures NeverSoils(c, ty, s, events) ==> Neat(c, ty, Exec(c, ty, s, events))
    decreases |events|
  {
    if events != [] {
      EventKeepsGoodIff(c, ty, s, events[0]);
      EventKeepsCurrentIff(c, ty, s, events[0]);
      if !LeavesBehind(c, ty, s, events[0]) && !LeavesStale(s, events[0]) {
        HistoryKeepsNeatIff(c, ty, Apply(c, ty, s, events[0]), events[1..]);
      }
    }
  }

  ghost predicate NeverLeavesBehind(c: Config, ty: string -> string, s: Local, events: seq<Event>)
    decreases |events|
  {
    events != [] ==> !LeavesBehind(c, ty, s, events[0]) && NeverLeavesBehind(c, ty, Apply(c, ty, s, events[0]), events[1..])
  }

  ghost predicate GoodThroughout(c: Config, ty: string -> string, s: Local, events: seq<Event>)
    decreases |events|
  {
    Good(c, ty, s) && (events != [] ==> GoodThroughout(c, ty, Apply(c, ty, s, events[0]), events[1..]))
  }

  lemma {:induction false} HistoryKeepsTidy(c: Config, ty: string -> string, s: Local, events: seq<Event>)
    requires Tidy(c, ty, s) && LegalRun(c, ty, s, events)
    ensures Tidy(c, ty, Exec(c, ty, s, events))
    decreases |events|
  {
    if events != [] {
      EventKeepsTidy(c, ty, s, events[0]);
      HistoryKeepsTidy(c, ty, Apply(c, ty, s, events[0]), events[1..]);
    }
  }

  /** Exact over whole histories with any faults: every state is free of left-behind identities iff
      no event leaves one. */
  lemma {:induction false} HistoryKeepsGoodIff(c: Config, ty: string -> string, s: Local, events: seq<Event>)
    requires Good(c, ty, s) && LegalRun(c, ty, s, events)
    ensures GoodThroughout(c, ty, s, events) <==> NeverLeavesBehind(c, ty, s, events)
    ensures NeverLeavesBehind(c, ty, s, events) ==> Good(c, ty, Exec(c, ty, s, events))
    decreases |events|
  {
    if events != [] {
      EventKeepsGoodIff(c, ty, s, events[0]);
      if !LeavesBehind(c, ty, s, events[0]) { HistoryKeepsGoodIff(c, ty, Apply(c, ty, s, events[0]), events[1..]); }
    }
  }

  ghost predicate CleanConnect(ty: string -> string, s: Local, desired: seq<Agent>, p: Event) {
    p.Pass? && p.desired == desired && p.faults == NO_FAULTS && Legal(ty, s, p) && IsEnsure(desired, s.crs, p.ensured)
  }

  lemma ConnectAfterHistory(c: Config, ty: string -> string, l: Local, h: seq<Event>, desired: seq<Agent>, p: Event)
    requires Neat(c, ty, l) && LegalRun(c, ty, l, h) && CleanConnect(ty, Exec(c, ty, l, h), desired, p)
    ensures var s := Exec(c, ty, l, h);
            var target := Target(c, desired, s.crs.Keys);
            var settled := Settled(c, ty, s.node, target);
            && Apply(c, ty, s, p) == settled.(entries := settled.entries + Residue(c, ty, s, target))
            && (NeverSoils(c, ty, l, h) ==> Residue(c, ty, s, target) == {})
  {
    var s := Exec(c, ty, l, h);
    HistoryKeepsTidy(c, ty, l, h);
    HistoryKeepsNeatIff(c, ty, l, h);
    if NeverSoils(c, ty, l, h) { NeatHasNoResidue(c, ty, s, Target(c, desired, s.crs.Keys)); }
    ConvergeSettles(c, ty, s, desired, p.ensured, p.toCreate, p.toDelete);
  }

  /** History independence: take any two histories of frames, losses, rotates and passes, with any
      faults, that end on the same node with CRs for the same revoked agents. One clean
      reconcile-on-connect against the same desired records gives both the same workloads, and
      identities that differ at most by what faults of either history left; if neither left any, the
      two substrates are identical. */
  lemma ConvergenceForgetsHistory(c: Config, ty: string -> string, h1: seq<Event>, h2: seq<Event>, n1: string, n2: string,
                                  desired: seq<Agent>, p1: Event, p2: Event)
    requires var l1, l2 := Local(map[], {}, n1), Local(map[], {}, n2);
             var s1, s2 := Exec(c, ty, l1, h1), Exec(c, ty, l2, h2);
             && LegalRun(c, ty, l1, h1) && LegalRun(c, ty, l2, h2)
             && s1.node == s2.node
             && (forall id :: id in WantOf(desired) && WantOf(desired)[id].status.Revoked? ==> (id in s1.crs <==> id in s2.crs))
             && CleanConnect(ty, s1, desired, p1) && CleanConnect(ty, s2, desired, p2)
    ensures var l1, l2 := Local(map[], {}, n1), Local(map[], {}, n2);
            var s1, s2 := Exec(c, ty, l1, h1), Exec(c, ty, l2, h2);
            var r1, r2 := Apply(c, ty, s1, p1), Apply(c, ty, s2, p2);
            && r1.crs == r2.crs && r1.node == r2.node
            && r1.entries - Residue(c, ty, s1, Target(c, desired, s1.crs.Keys)) <= r2.entries
            && r2.entries - Residue(c, ty, s2, Target(c, desired, s2.crs.Keys)) <= r1.entries
            && (NeverSoils(c, ty, l1, h1) && NeverSoils(c, ty, l2, h2) ==> r1 == r2)
  {
    var l1, l2 := Local(map[], {}, n1), Local(map[], {}, n2);
    var s1, s2 := Exec(c, ty, l1, h1), Exec(c, ty, l2, h2);
    ConnectAfterHistory(c, ty, l1, h1, desired, p1);
    ConnectAfterHistory(c, ty, l2, h2, desired, p2);
    assert Target(c, desired, s1.crs.Keys) == Target(c, desired, s2.crs.Keys);
  }
}
