/** Creating an org writes to four stores in order, and undoes what it wrote when a step fails.
    A failed authorization, membership or redirect write may nevertheless have landed. */
module OrgCreate {
  import opened Common

  /** `settings` stands for what a re-post preserves: creation time, disposition, anchor. */
  datatype Org = Org(name: string, settings: string, disabled: bool)

  /** Org records; directory orgs with their memberships; admin tuples; orgs with redirect URIs
      registered; known user accounts. */
  datatype State = State(
    records: map<string, Org>, directory: set<string>, members: set<(string, string)>,
    admins: set<(string, string)>, redirects: set<string>, users: set<string>)

  datatype Request = Request(org: string, name: string, admin: string)

  /** The step that fails, and whether its write landed all the same. The first two steps have no
      effect when they fail. */
  datatype Fault = DirectoryOrg | Record | AdminTuple(landed: bool) | Membership(landed: bool) | Redirects(landed: bool)

  ghost predicate WellFormed(s: State) {
    forall p :: p in s.members ==> p.0 in s.directory
  }

  function Stored(s: State, r: Request, settings: string): Org {
    if r.org in s.records then s.records[r.org].(name := r.name) else Org(r.name, settings, false)
  }

  function WithoutOrg(members: set<(string, string)>, o: string): set<(string, string)> {
    set p | p in members && p.0 != o
  }

  /** A clean create, or the converging re-post of a known org. */
  function Created(s: State, r: Request, settings: string, satellite: bool): State {
    State(s.records[r.org := Stored(s, r, settings)], s.directory + {r.org}, s.members + {(r.org, r.admin)},
          s.admins + {(r.org, r.admin)}, if satellite then s.redirects + {r.org} else s.redirects, s.users + {r.admin})
  }

  ghost predicate OthersKept(s: State, t: State, r: Request) {
    && (forall o :: o != r.org ==> (o in t.records <==> o in s.records) && (o in t.directory <==> o in s.directory))
    && (forall o :: o != r.org ==> (o in t.redirects <==> o in s.redirects))
    && (forall o :: o in s.records && o in t.records && o != r.org ==> t.records[o] == s.records[o])
    && (forall p :: p != (r.org, r.admin) ==> (p in t.members <==> p in s.members) && (p in t.admins <==> p in s.admins))
    && (forall u :: u != r.admin ==> (u in t.users <==> u in s.users))
  }

  /** After a create or a re-post the org has the name asked for in the record store and stands in the
      directory, its caller has an account, administers it and belongs to it, and its redirect URIs are
      registered on a satellite. A re-post changes neither the settings nor a suspension, and nothing
      of any other org or user moves. */
  lemma CreatedMeans(s: State, r: Request, settings: string, satellite: bool)
    ensures var t := Created(s, r, settings, satellite);
            && OthersKept(s, t, r)
            && r.org in t.records && t.records[r.org].name == r.name && r.org in t.directory
            && (r.org in s.records ==>
                  t.records[r.org].settings == s.records[r.org].settings && t.records[r.org].disabled == s.records[r.org].disabled)
            && (r.org !in s.records ==> t.records[r.org].settings == settings && !t.records[r.org].disabled)
            && (r.org, r.admin) in t.members && (r.org, r.admin) in t.admins && r.admin in t.users
            && (r.org in t.redirects <==> satellite || r.org in s.redirects)
  {
  }

  /** Posting again converges: the same request a second time changes nothing. */
  lemma RepostConverges(s: State, r: Request, settings: string, later: string, satellite: bool)
    ensures Created(Created(s, r, settings, satellite), r, later, satellite) == Created(s, r, settings, satellite)
  {
    var t := Created(s, r, settings, satellite);
    assert Stored(t, r, later) == t.records[r.org] && t.records[r.org := t.records[r.org]] == t.records;
    assert Created(t, r, later, satellite).directory == t.directory;
  }

  /** The stores an org is spread over, and the handler that writes them. */
  class OrgService {
    var records: map<string, Org>
    var directory: set<string>
    var members: set<(string, string)>
    var admins: set<(string, string)>
    var redirects: set<string>
    var users: set<string>

    ghost function View(): State
      reads this
    {
      State(records, directory, members, admins, redirects, users)
    }

    constructor ()
      ensures View() == State(map[], {}, {}, {}, {}, {}) && WellFormed(View())
    {
      records, directory, members, admins, redirects, users := map[], {}, {}, {}, {}, {};
    }

    /** Deleting a directory org takes its memberships with it. */
    method DeleteDirectoryOrg(o: string)
      modifies this`directory, this`members
      ensures directory == old(directory) - {o} && members == WithoutOrg(old(members), o)
    {
      directory := directory - {o};
      members := set p | p in members && p.0 != o;
    }

    /** Undoes the admin wiring, and the org itself when this call made it. */
    method Unwind(r: Request, existed: bool)
      modifies this`records, this`directory, this`members, this`admins
      ensures admins == old(admins) - {(r.org, r.admin)}
      ensures existed ==> records == old(records) && directory == old(directory) && members == old(members) - {(r.org, r.admin)}
      ensures !existed ==>
                && records == old(records) - {r.org} && directory == old(directory) - {r.org}
                && members == WithoutOrg(old(members), r.org)
    {
      admins := admins - {(r.org, r.admin)};
      members := members - {(r.org, r.admin)};
      if !existed {
        records := records - {r.org};
        DeleteDirectoryOrg(r.org);
      }
    }

    /** The last two steps: authorization and membership of the first administrator, then the
        satellite redirect URIs. */
    method Wire(r: Request, existed: bool, satellite: bool, fault: Option<Fault>) returns (ok: bool)
      modifies this
      ensures ok <==> !(fault.Some? && (fault.value.AdminTuple? || fault.value.Membership? || (fault.value.Redirects? && satellite)))
      ensures ok ==> View() == old(View()).(
                       members := old(members) + {(r.org, r.admin)}, admins := old(admins) + {(r.org, r.admin)},
                       redirects := if satellite then old(redirects) + {r.org} else old(redirects), users := old(users) + {r.admin})
      ensures !ok ==> View() == old(View()).(
                        records := if existed then old(records) else old(records) - {r.org},
                        directory := if existed then old(directory) else old(directory) - {r.org},
                        members := if existed then old(members) - {(r.org, r.admin)} else WithoutOrg(old(members), r.org),
                        admins := old(admins) - {(r.org, r.admin)},
                        redirects := if fault.value.Redirects? then old(redirects) - {r.org} else old(redirects),
                        users := if fault.value.Redirects? || fault.value == Membership(true) then old(users) + {r.admin} else old(users))
    {
      ok := !(fault.Some? && fault.value.AdminTuple?);
      if ok || fault.value.landed { admins := admins + {(r.org, r.admin)}; }
      if ok {
        ok := !(fault.Some? && fault.value.Membership?);
        if ok || fault.value.landed { members, users := members + {(r.org, r.admin)}, users + {r.admin}; }
      }
      if !ok {
        Unwind(r, existed);
        return;
      }
      if satellite {
        ok := !(fault.Some? && fault.value.Redirects?);
        if ok || fault.value.landed { redirects := redirects + {r.org}; }
        if !ok {
          redirects := redirects - {r.org};
          Unwind(r, existed);
        }
      }
    }

    /** POST /v1/orgs. `satellite` is whether an apex domain is configured. */
    method Create(r: Request, settings: string, satellite: bool, fault: Option<Fault>) returns (ok: bool)
      modifies this
      ensures ok <==> fault.None? || (fault.value.Redirects? && !satellite)
      ensures ok ==> View() == Created(old(View()), r, settings, satellite)
      ensures !ok ==> View() == Undone(old(View()), r, fault.value)
      ensures !ok ==> users == if fault.value.Redirects? || fault.value == Membership(true) then old(users) + {r.admin} else old(users)
    {
      var existed := r.org in records;
      if fault == Some(DirectoryOrg) { return false; }
      directory := directory + {r.org};
      if fault == Some(Record) {
        if !existed { DeleteDirectoryOrg(r.org); }
        return false;
      }
      records := records[r.org := if existed then records[r.org].(name := r.name) else Org(r.name, settings, false)];
      ok := Wire(r, existed, satellite, fault);
    }
  }

  /** What a failed create leaves behind. */
  function Undone(s: State, r: Request, f: Fault): State {
    var known := r.org in s.records;
    var wired := f.AdminTuple? || f.Membership? || f.Redirects?;
    State(
      if known && wired then s.records[r.org := s.records[r.org].(name := r.name)] else s.records,
      if f.DirectoryOrg? then s.directory else if known then s.directory + {r.org} else s.directory - {r.org},
      if f.DirectoryOrg? then s.members
      else if !known then WithoutOrg(s.members, r.org)
      else if wired then s.members - {(r.org, r.admin)} else s.members,
      if wired then s.admins - {(r.org, r.admin)} else s.admins,
      if f.Redirects? then s.redirects - {r.org} else s.redirects,
      if f.Redirects? || f == Membership(true) then s.users + {r.admin} else s.users)
  }

  /** Nothing anywhere mentions the org. */
  ghost predicate Absent(s: State, o: string) {
    && o !in s.records && o !in s.directory && o !in s.redirects
    && (forall p :: p in s.members + s.admins ==> p.0 != o)
  }

  ghost predicate SameButUsers(s: State, t: State) {
    t == s.(users := t.users)
  }

  /** All or nothing: a failure at any step of creating an absent org leaves every store as it was,
      except that the first administrator's account may have been opened; and a clean retry then
      reaches exactly the state a clean create would have. */
  lemma FailedCreateIsInvisible(s: State, r: Request, f: Fault, settings: string, satellite: bool)
    requires WellFormed(s) && Absent(s, r.org)
    ensures SameButUsers(s, Undone(s, r, f)) && s.users <= Undone(s, r, f).users <= s.users + {r.admin}
    ensures Created(Undone(s, r, f), r, settings, satellite) == Created(s, r, settings, satellite)
  {
    var t := Undone(s, r, f);
    assert t.members == s.members && t.admins == s.admins && t.directory == s.directory;
    assert t.users + {r.admin} == s.users + {r.admin};
  }

  /** The guard under which undoing is exact, step by step: only what the request itself would write
      may be missing beforehand, and a record it would rename must already carry the name. */
  ghost predicate UndoIsExact(s: State, r: Request, f: Fault) {
    var known := r.org in s.records;
    var wired := f.AdminTuple? || f.Membership? || f.Redirects?;
    || f.DirectoryOrg?
    || (&& (known <==> r.org in s.directory)
        && (wired ==> (r.org, r.admin) !in s.admins && (r.org, r.admin) !in s.members)
        && (wired && known ==> s.records[r.org].name == r.name)
        && (f.Redirects? ==> r.org !in s.redirects))
  }

  /** On arbitrary states, known orgs included, a failed create leaves no trace iff that guard holds.
      In particular a failed re-post by someone who already administers or belongs to the org takes
      that standing away. */
  lemma FailedCreateIsInvisibleIff(s: State, r: Request, f: Fault)
    requires WellFormed(s)
    ensures SameButUsers(s, Undone(s, r, f)) <==> UndoIsExact(s, r, f)
  {
    var t := Undone(s, r, f);
    var known := r.org in s.records;
    var wired := f.AdminTuple? || f.Membership? || f.Redirects?;
    if UndoIsExact(s, r, f) {
      assert t.records == s.records && t.directory == s.directory;
      assert t.members == s.members && t.admins == s.admins && t.redirects == s.redirects;
    } else {
      if known != (r.org in s.directory) { assert t.directory != s.directory; }
      if wired && (r.org, r.admin) in s.admins { assert t.admins != s.admins; }
      if wired && (r.org, r.admin) in s.members { assert (r.org, r.admin) !in t.members; }
      if wired && known && s.records[r.org].name != r.name { assert t.records[r.org] != s.records[r.org]; }
      if f.Redirects? && r.org in s.redirects { assert t.redirects != s.redirects; }
    }
  }
}
