/** The handlers taken apart, put together again: the steps of one request, when no other request runs
    in between, have exactly the effect of the whole operation, whatever order they take the accounts in. */
module SuspensionRefinement {
  import opened Common
  import opened SuspensionRuns
  import S = Suspension

  /** The stores as whole operations see them. */
  function Stores(s: System): S.State {
    S.State(s.orgs, s.members, s.accounts, {})
  }

  /** Same stores as after the whole operation, and no trace of the request. */
  ghost predicate Amounts(s: System, v: System, master: string -> bool, op: S.Op) {
    v.threads == s.threads && Stores(v) == S.Apply(Stores(s), master, op)
  }

  lemma AddIsWhole(s: System, master: string -> bool, t: nat, o: string, u: string)
    requires t !in s.threads
    ensures Amounts(s, Apply(Apply(s, AddCheck(t, o, u), master), AddWrite(t), master), master, S.AddMember(o, u))
  {
    var v := Apply(s, AddCheck(t, o, u), master);
    assert v.threads - {t} == s.threads;
  }

  lemma PostIsWhole(s: System, master: string -> bool, t: nat, o: string, u: string)
    requires t !in s.threads
    ensures Amounts(s, Apply(Apply(Apply(s, PostRead(t, o, u), master), PostPut(t), master), AddWrite(t), master), master, S.CreateOrg(o, u))
  {
    var v := Apply(Apply(s, PostRead(t, o, u), master), PostPut(t), master);
    assert v.threads - {t} == s.threads;
    if o in s.orgs { assert s.orgs[o := s.orgs[o]] == s.orgs; }
  }

  lemma LeaveReads(s: System, master: string -> bool, t: nat, o: string, u: string)
    requires t !in s.threads && o in s.orgs
    ensures var v := Apply(Apply(s, Leave(t, o, u), master), LeaveRead(t), master);
            && v == s.(members := if o in s.members then s.members[o := s.members[o] - {u}] else s.members, threads := v.threads)
            && v.threads == if s.orgs[o] then s.threads[t := Freeing(o, u)] else s.threads
  {
    var v := Apply(s, Leave(t, o, u), master);
    assert v.threads == s.threads[t := Leaving(o, u)] && v.threads - {t} == s.threads;
  }

  lemma RemoveIsWhole(s: System, master: string -> bool, t: nat, o: string, u: string)
    requires t !in s.threads
    ensures Amounts(s, Apply(Apply(Apply(s, Leave(t, o, u), master), LeaveRead(t), master), FreeOne(t), master), master, S.RemoveMember(o, u))
  {
    if o in s.orgs {
      LeaveReads(s, master, t, o, u);
      RemovalEnds(s, Apply(Apply(s, Leave(t, o, u), master), LeaveRead(t), master), master, t, o, u);
    }
  }

  lemma RemovalEnds(s: System, v: System, master: string -> bool, t: nat, o: string, u: string)
    requires t !in s.threads && o in s.orgs
    requires v == s.(members := if o in s.members then s.members[o := s.members[o] - {u}] else s.members, threads := v.threads)
    requires v.threads == if s.orgs[o] then s.threads[t := Freeing(o, u)] else s.threads
    ensures Amounts(s, Apply(v, FreeOne(t), master), master, S.RemoveMember(o, u))
  {
    assert s.threads[t := Freeing(o, u)] - {t} == s.threads;
  }

  lemma BansAreWhole(s: System, master: string -> bool, u: string)
    ensures Amounts(s, Apply(s, BanUser(u), master), master, S.DisableUser(u))
    ensures Amounts(s, Apply(s, UnbanUser(u), master), master, S.EnableUser(u))
  {
  }

  // The loops over accounts.

  function TagEach(s: System, master: string -> bool, t: nat, users: seq<string>): System {
    if users == [] then s
    else
      var n := |users| - 1;
      Apply(TagEach(s, master, t, users[..n]), DisableOne(t, users[n]), master)
  }

  function UntagEach(s: System, master: string -> bool, t: nat, users: seq<string>): System {
    if users == [] then s
    else
      var n := |users| - 1;
      Apply(UntagEach(s, master, t, users[..n]), EnableOne(t, users[n]), master)
  }

  lemma OneMore(users: seq<string>, todo: set<string>)
    requires users != [] && Distinct(users) && Elements(users) <= todo
    ensures var n := |users| - 1;
            && Distinct(users[..n]) && Elements(users) == Elements(users[..n]) + {users[n]} && users[n] !in Elements(users[..n])
            && (todo - Elements(users[..n])) - {users[n]} == todo - Elements(users)
  {
    var n := |users| - 1;
    assert forall x :: x in users <==> x in users[..n] || x == users[n];
  }

  function TaggedOne(accounts: map<string, S.Account>, o: string, u: string): map<string, S.Account> {
    if u in accounts then accounts[u := S.Tag(accounts[u], o)] else accounts
  }

  function UntaggedOne(accounts: map<string, S.Account>, o: string, u: string): map<string, S.Account> {
    if u in accounts then accounts[u := S.Untag(accounts[u], o)] else accounts
  }

  lemma TagsOneMore(accounts: map<string, S.Account>, o: string, users: set<string>, u: string)
    requires u !in users
    ensures TaggedOne(S.TagUsers(accounts, o, users), o, u) == S.TagUsers(accounts, o, users + {u})
  {
    if u in accounts { S.TagOneMore(accounts, o, users, u); } else { S.UnknownUsersDontCount(accounts, o, users, {u}); }
  }

  lemma UntagsOneMore(accounts: map<string, S.Account>, o: string, users: set<string>, u: string)
    requires u !in users
    ensures UntaggedOne(S.UntagUsers(accounts, o, users), o, u) == S.UntagUsers(accounts, o, users + {u})
  {
    if u in accounts { S.UntagOneMore(accounts, o, users, u); } else { S.UnknownUsersDontCount(accounts, o, users, {u}); }
  }

  lemma TagStep(s: System, master: string -> bool, t: nat, o: string, todo: set<string>, u: string)
    requires t in s.threads && s.threads[t] == Tagging(o, todo) && u in todo
    ensures Apply(s, DisableOne(t, u), master) == s.(accounts := TaggedOne(s.accounts, o, u), threads := s.threads[t := Tagging(o, todo - {u})])
  {
  }

  lemma UntagStep(s: System, master: string -> bool, t: nat, o: string, todo: set<string>, deletes: bool, u: string)
    requires t in s.threads && s.threads[t] == Untagging(o, todo, deletes) && u in todo
    ensures Apply(s, EnableOne(t, u), master) ==
            s.(accounts := UntaggedOne(s.accounts, o, u), threads := s.threads[t := Untagging(o, todo - {u}, deletes)])
  {
  }

  lemma {:induction false} TagsAll(s: System, master: string -> bool, t: nat, o: string, todo: set<string>, users: seq<string>)
    requires t in s.threads && s.threads[t] == Tagging(o, todo) && Distinct(users) && Elements(users) <= todo
    ensures TagEach(s, master, t, users) ==
            s.(accounts := S.TagUsers(s.accounts, o, Elements(users)), threads := s.threads[t := Tagging(o, todo - Elements(users))])
    decreases |users|
  {
    if users == [] {
      S.NobodyTagged(s.accounts, o, {});
      assert Elements(users) == {} && todo - {} == todo && s.threads[t := Tagging(o, todo)] == s.threads;
    } else {
      var n := |users| - 1;
      OneMore(users, todo);
      TagsAll(s, master, t, o, todo, users[..n]);
      TagsOneMore(s.accounts, o, Elements(users[..n]), users[n]);
      TagStep(TagEach(s, master, t, users[..n]), master, t, o, todo - Elements(users[..n]), users[n]);
    }
  }

  lemma {:induction false} UntagsAll(s: System, master: string -> bool, t: nat, o: string, todo: set<string>, deletes: bool, users: seq<string>)
    requires t in s.threads && s.threads[t] == Untagging(o, todo, deletes) && Distinct(users) && Elements(users) <= todo
    ensures UntagEach(s, master, t, users) ==
            s.(accounts := S.UntagUsers(s.accounts, o, Elements(users)), threads := s.threads[t := Untagging(o, todo - Elements(users), deletes)])
    decreases |users|
  {
    if users == [] {
      S.NobodyTagged(s.accounts, o, {});
      assert Elements(users) == {} && todo - {} == todo && s.threads[t := Untagging(o, todo, deletes)] == s.threads;
    } else {
      var n := |users| - 1;
      OneMore(users, todo);
      UntagsAll(s, master, t, o, todo, deletes, users[..n]);
      UntagsOneMore(s.accounts, o, Elements(users[..n]), users[n]);
      UntagStep(UntagEach(s, master, t, users[..n]), master, t, o, todo - Elements(users[..n]), deletes, users[n]);
    }
  }

  lemma DisableLists(s: System, master: string -> bool, t: nat, o: string)
    requires t !in s.threads && o in s.orgs
    ensures Apply(Apply(Apply(s, DisableRead(t, o), master), DisablePut(t), master), DisableList(t), master) ==
            s.(orgs := s.orgs[o := true], threads := s.threads[t := Tagging(o, S.Suspendable(Stores(s), master, o))])
  {
    var a := Apply(s, DisableRead(t, o), master);
    assert a == s.(threads := s.threads[t := Flagging(o)]);
    var b := Apply(a, DisablePut(t), master);
    assert b == s.(orgs := s.orgs[o := true], threads := s.threads[t := Disabling(o)]);
    assert Members(b, o) == S.MembersOf(Stores(s), o);
  }

  lemma DisableStops(s: System, v: System, master: string -> bool, t: nat, o: string)
    requires t !in s.threads && o in s.orgs
    requires v == s.(orgs := s.orgs[o := true], threads := v.threads,
                     accounts := S.TagUsers(s.accounts, o, S.Suspendable(Stores(s), master, o)))
    requires v.threads == s.threads[t := Tagging(o, {})]
    ensures Amounts(s, Apply(v, Stop(t), master), master, S.DisableOrg(o))
  {
    assert v.threads - {t} == s.threads;
  }

  lemma DisableIsWhole(s: System, master: string -> bool, t: nat, o: string, users: seq<string>)
    requires t !in s.threads && o in s.orgs && Distinct(users) && Elements(users) == S.Suspendable(Stores(s), master, o)
    ensures var listed := Apply(Apply(Apply(s, DisableRead(t, o), master), DisablePut(t), master), DisableList(t), master);
            Amounts(s, Apply(TagEach(listed, master, t, users), Stop(t), master), master, S.DisableOrg(o))
  {
    var listed := Apply(Apply(Apply(s, DisableRead(t, o), master), DisablePut(t), master), DisableList(t), master);
    var todo := S.Suspendable(Stores(s), master, o);
    DisableLists(s, master, t, o);
    TagsAll(listed, master, t, o, todo, users);
    assert todo - Elements(users) == {};
    DisableStops(s, TagEach(listed, master, t, users), master, t, o);
  }

  function Listed(s: System, master: string -> bool, t: nat, o: string, deletes: bool): System {
    Apply(Apply(s, EnableRead(t, o, deletes), master), EnableList(t), master)
  }

  lemma ReleasesAll(s: System, master: string -> bool, t: nat, o: string, deletes: bool, users: seq<string>)
    requires t !in s.threads && o in s.orgs && Distinct(users) && Elements(users) == Members(s, o)
    ensures UntagEach(Listed(s, master, t, o, deletes), master, t, users) ==
            s.(accounts := S.UntagUsers(s.accounts, o, Members(s, o)), threads := s.threads[t := Untagging(o, {}, deletes)])
  {
    var listed := Listed(s, master, t, o, deletes);
    assert listed == s.(threads := s.threads[t := Untagging(o, Members(s, o), deletes)]);
    UntagsAll(listed, master, t, o, Members(s, o), deletes, users);
    assert Members(s, o) - Elements(users) == {};
  }

  lemma EnableIsWhole(s: System, master: string -> bool, t: nat, o: string, users: seq<string>)
    requires t !in s.threads && o in s.orgs && Distinct(users) && Elements(users) == Members(s, o)
    ensures Amounts(s, Apply(UntagEach(Listed(s, master, t, o, false), master, t, users), EnablePut(t), master), master, S.EnableOrg(o))
  {
    ReleasesAll(s, master, t, o, false, users);
    assert s.threads[t := Untagging(o, {}, false)] - {t} == s.threads;
  }

  lemma DeleteIsWhole(s: System, master: string -> bool, t: nat, o: string, users: seq<string>)
    requires t !in s.threads && o in s.orgs && Distinct(users) && Elements(users) == Members(s, o)
    ensures var released := UntagEach(Listed(s, master, t, o, true), master, t, users);
            Amounts(s, Apply(Apply(released, DeleteDirectory(t), master), DeleteStore(t), master), master, S.DeleteOrg(o))
  {
    ReleasesAll(s, master, t, o, true, users);
    var erasing := Apply(UntagEach(Listed(s, master, t, o, true), master, t, users), DeleteDirectory(t), master);
    assert erasing.threads - {t} == s.threads;
  }
}
