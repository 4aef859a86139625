/** What revoke and resume do to the records and to the `enabled` tuples, as functions
    of the set of ids they visit. The walks that compute that set are in Registry. */
module Revocation {
  import opened Lineage

  /** The part of the control plane that decides whether an agent may act. */
  datatype Authority = Authority(fleet: Fleet, enabled: set<string>)

  predicate Revocable(st: Status) {
    st.Active? || st.Pending?
  }

  predicate Hit(f: Fleet, ids: set<string>, k: string) {
    k in ids && k in f && Revocable(f[k].status)
  }

  /** A failed tuple delete (ids in `stuck`) is logged and passed over: the record still flips. */
  function RevokeBut(a: Authority, ids: set<string>, stuck: set<string>): Authority {
    Authority(
      map k | k in a.fleet :: if Hit(a.fleet, ids, k) then a.fleet[k].(status := Revoked) else a.fleet[k],
      set e | e in a.enabled && (Hit(a.fleet, ids, e) ==> e in stuck))
  }

  function RevokeAll(a: Authority, ids: set<string>): Authority {
    RevokeBut(a, ids, {})
  }

  predicate Resumable(f: Fleet, ids: set<string>, k: string) {
    k in ids && k in f && f[k].status.Revoked?
  }

  /** Likewise a failed tuple write leaves a resumed record without its tuple. */
  function ResumeBut(a: Authority, ids: set<string>, stuck: set<string>): Authority {
    Authority(
      map k | k in a.fleet :: if Resumable(a.fleet, ids, k) then a.fleet[k].(status := Active) else a.fleet[k],
      a.enabled + (set k | k in a.fleet && Resumable(a.fleet, ids, k) && k !in stuck))
  }

  function ResumeAll(a: Authority, ids: set<string>): Authority {
    ResumeBut(a, ids, {})
  }

  /** In record fields: visiting a node revokes it iff it was active or pending, and resumes it iff it
      was revoked. Its tuple goes or comes with that unless the tuple call failed, and nothing else of
      any record or tuple moves. */
  lemma VisitsAreExact(a: Authority, ids: set<string>, stuck: set<string>, k: string)
    requires k in a.fleet
    ensures var b := RevokeBut(a, ids, stuck);
            && b.fleet.Keys == a.fleet.Keys
            && if k in ids && (a.fleet[k].status == Active || a.fleet[k].status == Pending)
               then b.fleet[k] == a.fleet[k].(status := Revoked) && (k in b.enabled <==> k in a.enabled && k in stuck)
               else b.fleet[k] == a.fleet[k] && (k in b.enabled <==> k in a.enabled)
    ensures var b := ResumeBut(a, ids, stuck);
            && b.fleet.Keys == a.fleet.Keys
            && if k in ids && a.fleet[k].status == Revoked
               then b.fleet[k] == a.fleet[k].(status := Active) && (k in b.enabled <==> k in a.enabled || k !in stuck)
               else b.fleet[k] == a.fleet[k] && (k in b.enabled <==> k in a.enabled)
  {
  }

  lemma RevokeKeepsEdges(a: Authority, ids: set<string>, stuck: set<string>)
    ensures SameEdges(a.fleet, RevokeBut(a, ids, stuck).fleet)
    ensures WellKeyed(a.fleet) ==> WellKeyed(RevokeBut(a, ids, stuck).fleet)
  {
  }

  /** Visiting two sets one after the other is visiting their union: the order in which
      a cascade reaches its nodes cannot be observed afterwards. */
  lemma RevokeCompose(a: Authority, s: set<string>, t: set<string>, stuck: set<string>)
    ensures RevokeBut(RevokeBut(a, s, stuck), t, stuck) == RevokeBut(a, s + t, stuck)
  {
    var b := RevokeBut(a, s, stuck);
    var l, r := RevokeBut(b, t, stuck), RevokeBut(a, s + t, stuck);
    assert l.fleet == r.fleet;
    assert l.enabled == r.enabled;
  }

  lemma ResumeCompose(a: Authority, s: set<string>, t: set<string>, stuck: set<string>)
    ensures ResumeBut(ResumeBut(a, s, stuck), t, stuck) == ResumeBut(a, s + t, stuck)
  {
    var b := ResumeBut(a, s, stuck);
    var l, r := ResumeBut(b, t, stuck), ResumeBut(a, s + t, stuck);
    assert l.fleet == r.fleet;
    assert l.enabled == r.enabled;
  }

  lemma RevokeNothing(a: Authority, stuck: set<string>)
    ensures RevokeBut(a, {}, stuck) == a && ResumeBut(a, {}, stuck) == a
  {
    assert RevokeBut(a, {}, stuck).fleet == a.fleet && RevokeBut(a, {}, stuck).enabled == a.enabled;
    assert ResumeBut(a, {}, stuck).fleet == a.fleet && ResumeBut(a, {}, stuck).enabled == a.enabled;
  }

  /** A cascade that stopped after revoking only `part` is finished by running it again,
      and nothing distinguishes the result from one clean run. */
  lemma RetryConverges(a: Authority, part: set<string>, whole: set<string>)
    requires part <= whole
    ensures RevokeAll(RevokeAll(a, part), whole) == RevokeAll(a, whole)
    ensures RevokeAll(RevokeAll(a, whole), whole) == RevokeAll(a, whole)
  {
    RevokeCompose(a, part, whole, {});
    RevokeCompose(a, whole, whole, {});
    assert part + whole == whole && whole + whole == whole;
  }

  /** The retry skips records that are already revoked, so it makes up for failed tuple deletes
      iff no delete that failed was of a tuple that existed. */
  lemma RetryMakesUpForStuckIff(a: Authority, part: set<string>, whole: set<string>, stuck: set<string>)
    requires part <= whole
    ensures RevokeAll(RevokeBut(a, part, stuck), whole) == RevokeAll(a, whole)
            <==> forall k :: k in stuck && k in a.enabled ==> !Hit(a.fleet, part, k)
  {
    var b := RevokeBut(a, part, stuck);
    var l, r := RevokeAll(b, whole), RevokeAll(a, whole);
    assert l.fleet == r.fleet;
    forall k | k in a.enabled && Hit(a.fleet, part, k) ensures k in l.enabled <==> k in stuck {
      assert !Hit(b.fleet, whole, k);
    }
    if forall k :: k in stuck && k in a.enabled ==> !Hit(a.fleet, part, k) { assert l.enabled == r.enabled; }
    forall k | k in stuck && k in a.enabled && Hit(a.fleet, part, k) ensures l != r {
      assert k in l.enabled && k !in r.enabled;
    }
  }

  /** Revoke then resume over the same nodes: whatever was active, pending or already
      revoked comes back active with its tuple, and no other record or tuple moves. */
  lemma RevokeThenResume(a: Authority, ids: set<string>)
    ensures var b := ResumeAll(RevokeAll(a, ids), ids);
            && b.fleet.Keys == a.fleet.Keys
            && (forall k :: k in a.fleet ==>
                  if k in ids && (Revocable(a.fleet[k].status) || a.fleet[k].status.Revoked?)
                  then b.fleet[k] == a.fleet[k].(status := Active) && k in b.enabled
                  else b.fleet[k] == a.fleet[k] && (k in b.enabled <==> k in a.enabled))
            && (forall k :: k !in a.fleet ==> (k in b.enabled <==> k in a.enabled))
  {
    var m := RevokeAll(a, ids);
    assert forall k :: k in a.fleet && k in ids && Revocable(a.fleet[k].status) ==> m.fleet[k].status == Revoked;
    assert forall k :: k in a.fleet && !Hit(a.fleet, ids, k) ==> m.fleet[k] == a.fleet[k];
  }
}
