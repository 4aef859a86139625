/** Account lockouts with every handler taken apart: a request reads, lists, writes and touches one
    account at a time, any other request runs in between, and a request may stop at any point, done or
    failed. Each step on one account is the directory's own read-modify-write. */
module SuspensionRuns {
  import opened Suspension

  /** Where a request stands. */
  datatype Thread =
    | Posting(org: string, user: string, flag: bool)
    | Adding(org: string, user: string)
    | Flagging(org: string)
    | Disabling(org: string)
    | Tagging(org: string, todo: set<string>)
    | Entering(org: string, deletes: bool)
    | Untagging(org: string, todo: set<string>, deletes: bool)
    | Erasing(org: string)
    | Leaving(org: string, user: string)
    | Freeing(org: string, user: string)

  datatype System = System(
    orgs: map<string, bool>, members: map<string, set<string>>, accounts: map<string, Account>, threads: map<nat, Thread>)

  datatype Step =
    | PostRead(thread: nat, org: string, user: string)
    | PostPut(thread: nat)
    | AddCheck(thread: nat, org: string, user: string)
    | AddWrite(thread: nat)
    | DisableRead(thread: nat, org: string)
    | DisablePut(thread: nat)
    | DisableList(thread: nat)
    | DisableOne(thread: nat, user: string)
    | EnableRead(thread: nat, org: string, deletes: bool)
    | EnableList(thread: nat)
    | EnableOne(thread: nat, user: string)
    | EnablePut(thread: nat)
    | DeleteDirectory(thread: nat)
    | DeleteStore(thread: nat)
    | Leave(thread: nat, org: string, user: string)
    | LeaveRead(thread: nat)
    | FreeOne(thread: nat)
    | BanUser(user: string)
    | UnbanUser(user: string)
    | Stop(thread: nat)

  function Members(s: System, o: string): set<string> {
    if o in s.members then s.members[o] else {}
  }

  function On(s: System, t: nat, th: Thread): System {
    s.(threads := s.threads[t := th])
  }

  function Off(s: System, t: nat): System {
    s.(threads := s.threads - {t})
  }

  function TagOne(s: System, o: string, u: string): System {
    if u in s.accounts then s.(accounts := s.accounts[u := Tag(s.accounts[u], o)]) else s
  }

  function UntagOne(s: System, o: string, u: string): System {
    if u in s.accounts then s.(accounts := s.accounts[u := Untag(s.accounts[u], o)]) else s
  }

  /** A request that begins: it is refused, or takes its first read. */
  function Begin(s: System, e: Step): System {
    match e
    case PostRead(t, o, u) => On(s, t, Posting(o, u, o in s.orgs && s.orgs[o]))
    case AddCheck(t, o, u) => if o in s.orgs && !s.orgs[o] then On(s, t, Adding(o, u)) else s
    case DisableRead(t, o) => if o in s.orgs then On(s, t, Flagging(o)) else s
    case EnableRead(t, o, deletes) => if o in s.orgs then On(s, t, Entering(o, deletes)) else s
    case Leave(t, o, u) =>
      if o in s.orgs then On(s.(members := if o in s.members then s.members[o := s.members[o] - {u}] else s.members), t, Leaving(o, u)) else s
    case _ => s
  }

  /** A request that goes on from where its thread stands. A re-post writes back the flag it read. */
  function Continue(s: System, t: nat, th: Thread, e: Step, master: string -> bool): System {
    match e
    case PostPut(_) => if th.Posting? then On(s.(orgs := s.orgs[th.org := th.flag]), t, Adding(th.org, th.user)) else s
    case AddWrite(_) =>
      if !th.Adding? then s
      else Off(s.(members := s.members[th.org := Members(s, th.org) + {th.user}],
                  accounts := if th.user in s.accounts then s.accounts else s.accounts[th.user := FRESH_ACCOUNT]), t)
    case DisablePut(_) => if th.Flagging? then On(s.(orgs := s.orgs[th.org := true]), t, Disabling(th.org)) else s
    case DisableList(_) => if th.Disabling? then On(s, t, Tagging(th.org, set u | u in Members(s, th.org) && !master(u))) else s
    case DisableOne(_, u) =>
      if th.Tagging? && u in th.todo then On(TagOne(s, th.org, u), t, Tagging(th.org, th.todo - {u})) else s
    case EnableList(_) => if th.Entering? then On(s, t, Untagging(th.org, Members(s, th.org), th.deletes)) else s
    case EnableOne(_, u) =>
      if th.Untagging? && u in th.todo then On(UntagOne(s, th.org, u), t, Untagging(th.org, th.todo - {u}, th.deletes)) else s
    case EnablePut(_) =>
      if th.Untagging? && th.todo == {} && !th.deletes then Off(s.(orgs := s.orgs[th.org := false]), t) else s
    case DeleteDirectory(_) =>
      if th.Untagging? && th.todo == {} && th.deletes then On(s.(members := s.members - {th.org}), t, Erasing(th.org)) else s
    case DeleteStore(_) => if th.Erasing? then Off(s.(orgs := s.orgs - {th.org}), t) else s
    case LeaveRead(_) =>
      if !th.Leaving? then s
      else if th.org in s.orgs && s.orgs[th.org] then On(s, t, Freeing(th.org, th.user)) else Off(s, t)
    case FreeOne(_) => if th.Freeing? then Off(UntagOne(s, th.org, th.user), t) else s
    case Stop(_) => Off(s, t)
    case _ => s
  }

  predicate Begins(e: Step) {
    e.PostRead? || e.AddCheck? || e.DisableRead? || e.EnableRead? || e.Leave?
  }

  function Apply(s: System, e: Step, master: string -> bool): System {
    if Begins(e) then Begin(s, e)
    else if e.BanUser? then if e.user in s.accounts && !master(e.user) then s.(accounts := s.accounts[e.user := Ban(s.accounts[e.user])]) else s
    else if e.UnbanUser? then if e.user in s.accounts then s.(accounts := s.accounts[e.user := Unban(s.accounts[e.user])]) else s
    else if e.thread in s.threads then Continue(s, e.thread, s.threads[e.thread], e, master)
    else s
  }

  /** A request has a thread of its own. */
  predicate Legal(s: System, e: Step) {
    Begins(e) ==> e.thread !in s.threads
  }

  function Exec(s: System, steps: seq<Step>, master: string -> bool): System
    decreases |steps|
  {
    if steps == [] then s else Exec(Apply(s, steps[0], master), steps[1..], master)
  }

  predicate LegalRun(s: System, steps: seq<Step>, master: string -> bool)
    decreases |steps|
  {
    steps != [] ==> Legal(s, steps[0]) && LegalRun(Apply(s, steps[0], master), steps[1..], master)
  }

  // What holds in every interleaving.

  /** Login and recorded reasons agree, members have accounts, and master administrators are never
      marked for tagging nor tagged. */
  ghost predicate Sane(s: System, master: string -> bool) {
    && (forall u :: u in s.accounts ==> Consistent(s.accounts[u]) && (master(u) ==> s.accounts[u].orgs == {}))
    && (forall o, u :: o in s.members && u in s.members[o] ==> u in s.accounts)
    && (forall t, u :: t in s.threads && s.threads[t].Tagging? && u in s.threads[t].todo ==> !master(u))
  }

  lemma BeginKeepsSane(s: System, e: Step, master: string -> bool)
    requires Sane(s, master) && Begins(e)
    ensures Sane(Apply(s, e, master), master)
  {
  }

  lemma OneKeepsSane(s: System, e: Step, master: string -> bool)
    requires Sane(s, master) && (e.DisableOne? || e.EnableOne? || e.FreeOne? || e.BanUser? || e.UnbanUser?)
    ensures Sane(Apply(s, e, master), master)
  {
    var v := Apply(s, e, master);
    assert forall t, x :: t in v.threads && v.threads[t].Tagging? && x in v.threads[t].todo ==> !master(x);
  }

  lemma ContinueKeepsSane(s: System, e: Step, master: string -> bool)
    requires Sane(s, master) && !Begins(e)
    ensures Sane(Apply(s, e, master), master)
  {
    if e.DisableOne? || e.EnableOne? || e.FreeOne? || e.BanUser? || e.UnbanUser? { OneKeepsSane(s, e, master); }
  }

  // One org and one account.

  ghost predicate Tagged(s: System, o: string, u: string) {
    u in s.accounts && o in s.accounts[u].orgs
  }

  ghost predicate Suspends(s: System, o: string, u: string) {
    o in s.orgs && s.orgs[o] && u in Members(s, o)
  }

  /** The request will lift the org's reason from the account. */
  predicate Relieves(th: Thread, o: string, u: string) {
    && th.org == o
    && ((th.Leaving? && th.user == u) || (th.Freeing? && th.user == u) || (th.Untagging? && u in th.todo))
  }

  /** The request will tag the account, or is opening the org up. */
  predicate Covers(th: Thread, o: string, u: string) {
    th.org == o && (th.Disabling? || (th.Tagging? && u in th.todo) || th.Untagging?)
  }

  ghost predicate Relieved(s: System, o: string, u: string) {
    exists t :: t in s.threads && Relieves(s.threads[t], o, u)
  }

  ghost predicate RelievedBut(s: System, o: string, u: string, t: nat) {
    exists i :: i in s.threads && i != t && Relieves(s.threads[i], o, u)
  }

  ghost predicate Covered(s: System, o: string, u: string) {
    exists t :: t in s.threads && Covers(s.threads[t], o, u)
  }

  ghost predicate CoveredBut(s: System, o: string, u: string, t: nat) {
    exists i :: i in s.threads && i != t && Covers(s.threads[i], o, u)
  }

  /** The lockout has its cause, or a request that will lift it. */
  ghost predicate Caused(s: System, o: string, u: string) {
    Tagged(s, o, u) ==> Suspends(s, o, u) || Relieved(s, o, u)
  }

  /** The cause has its lockout, or a request that will see to it. */
  ghost predicate Locked(s: System, o: string, u: string) {
    Suspends(s, o, u) ==> Tagged(s, o, u) || Covered(s, o, u)
  }

  /** The step takes a lockout's cause away, or tags without one, with nobody left to lift it. */
  ghost predicate Strands(s: System, e: Step, o: string, u: string) {
    && !Begins(e) && !e.BanUser? && !e.UnbanUser? && e.thread in s.threads && s.threads[e.thread].org == o
    && var th := s.threads[e.thread];
       match e
       case PostPut(_) => th.Posting? && !th.flag && Tagged(s, o, u) && !Relieved(s, o, u)
       case DisableOne(_, v) => th.Tagging? && v == u && u in th.todo && u in s.accounts && !Suspends(s, o, u) && !Relieved(s, o, u)
       case EnablePut(_) => th.Untagging? && th.todo == {} && !th.deletes && Tagged(s, o, u) && !Relieved(s, o, u)
       case DeleteDirectory(_) => th.Untagging? && th.todo == {} && th.deletes && Tagged(s, o, u) && !Relieved(s, o, u)
       case DeleteStore(_) => th.Erasing? && Tagged(s, o, u) && !Relieved(s, o, u)
       case LeaveRead(_) => th.Leaving? && !(o in s.orgs && s.orgs[o]) && Tagged(s, o, u) && !RelievedBut(s, o, u, e.thread)
       case Stop(_) => Tagged(s, o, u) && !Suspends(s, o, u) && !RelievedBut(s, o, u, e.thread)
       case _ => false
  }

  /** The step lets a member of a Disabled org in, with nobody left to tag it. */
  ghost predicate LetsIn(s: System, e: Step, o: string, u: string) {
    && !Begins(e) && !e.BanUser? && !e.UnbanUser? && e.thread in s.threads && s.threads[e.thread].org == o
    && var th := s.threads[e.thread];
       match e
       case PostPut(_) => th.Posting? && th.flag && u in Members(s, o) && !Tagged(s, o, u) && !Covered(s, o, u)
       case AddWrite(_) => th.Adding? && th.user == u && o in s.orgs && s.orgs[o] && !Tagged(s, o, u) && !Covered(s, o, u)
       case FreeOne(_) => th.Freeing? && th.user == u && Suspends(s, o, u) && !Covered(s, o, u)
       case Stop(_) => Suspends(s, o, u) && !Tagged(s, o, u) && !CoveredBut(s, o, u, e.thread)
       case _ => false
  }

  /** Moving one thread changes what the others promise in nothing. */
  lemma ThreadMoves(s: System, v: System, t: nat, o: string, u: string)
    requires t in v.threads && v.threads == s.threads[t := v.threads[t]]
    ensures Relieved(v, o, u) <==> RelievedBut(s, o, u, t) || Relieves(v.threads[t], o, u)
    ensures Covered(v, o, u) <==> CoveredBut(s, o, u, t) || Covers(v.threads[t], o, u)
    ensures Relieved(s, o, u) <==> RelievedBut(s, o, u, t) || (t in s.threads && Relieves(s.threads[t], o, u))
    ensures Covered(s, o, u) <==> CoveredBut(s, o, u, t) || (t in s.threads && Covers(s.threads[t], o, u))
  {
    assert forall i :: i != t ==> (i in v.threads <==> i in s.threads) && (i in s.threads ==> v.threads[i] == s.threads[i]);
  }

  lemma ThreadEnds(s: System, v: System, t: nat, o: string, u: string)
    requires t in s.threads && v.threads == s.threads - {t}
    ensures Relieved(v, o, u) <==> RelievedBut(s, o, u, t)
    ensures Covered(v, o, u) <==> CoveredBut(s, o, u, t)
    ensures Relieved(s, o, u) <==> RelievedBut(s, o, u, t) || Relieves(s.threads[t], o, u)
    ensures Covered(s, o, u) <==> CoveredBut(s, o, u, t) || Covers(s.threads[t], o, u)
  {
    assert forall i :: i in v.threads <==> i in s.threads && i != t;
  }

  lemma ThreadChange(s: System, e: Step, master: string -> bool, o: string, u: string)
    requires !e.BanUser? && !e.UnbanUser? && (!Begins(e) ==> e.thread in s.threads)
    ensures var v := Apply(s, e, master);
            || v == s
            || (e.thread in v.threads && v.threads == s.threads[e.thread := v.threads[e.thread]])
            || (e.thread in s.threads && v.threads == s.threads - {e.thread})
  {
  }

  lemma BeginKeeps(s: System, e: Step, master: string -> bool, o: string, u: string)
    requires Sane(s, master) && Legal(s, e) && Begins(e) && Caused(s, o, u) && Locked(s, o, u)
    ensures Caused(Apply(s, e, master), o, u) && Locked(Apply(s, e, master), o, u)
  {
    var v := Apply(s, e, master);
    if v != s { ThreadMoves(s, v, e.thread, o, u); }
  }

  /** What is promised after a step, by the other threads and by this one. */
  lemma Promises(s: System, e: Step, master: string -> bool, o: string, u: string)
    requires !Begins(e) && !e.BanUser? && !e.UnbanUser? && e.thread in s.threads
    ensures var v, t := Apply(s, e, master), e.thread;
            && (Relieved(v, o, u) <==> RelievedBut(s, o, u, t) || (t in v.threads && Relieves(v.threads[t], o, u)))
            && (Covered(v, o, u) <==> CoveredBut(s, o, u, t) || (t in v.threads && Covers(v.threads[t], o, u)))
            && (Relieved(s, o, u) <==> RelievedBut(s, o, u, t) || Relieves(s.threads[t], o, u))
            && (Covered(s, o, u) <==> CoveredBut(s, o, u, t) || Covers(s.threads[t], o, u))
  {
    var v, t := Apply(s, e, master), e.thread;
    ThreadChange(s, e, master, o, u);
    if t in v.threads { ThreadMoves(s, v, t, o, u); } else { ThreadEnds(s, v, t, o, u); }
  }

  lemma JoinIff(s: System, e: Step, master: string -> bool, o: string, u: string)
    requires (e.PostPut? || e.AddWrite?) && e.thread in s.threads && Sane(s, master) && Caused(s, o, u) && Locked(s, o, u)
    ensures Caused(Apply(s, e, master), o, u) <==> !Strands(s, e, o, u)
    ensures Locked(Apply(s, e, master), o, u) <==> !LetsIn(s, e, o, u)
  {
    Promises(s, e, master, o, u);
  }

  lemma FlagIff(s: System, e: Step, master: string -> bool, o: string, u: string)
    requires (e.DisablePut? || e.DisableList?) && e.thread in s.threads && Sane(s, master) && Caused(s, o, u) && Locked(s, o, u) && !master(u)
    ensures Caused(Apply(s, e, master), o, u) <==> !Strands(s, e, o, u)
    ensures Locked(Apply(s, e, master), o, u) <==> !LetsIn(s, e, o, u)
  {
    Promises(s, e, master, o, u);
  }

  lemma TagIff(s: System, e: Step, master: string -> bool, o: string, u: string)
    requires e.DisableOne? && e.thread in s.threads && Caused(s, o, u)
    ensures Caused(Apply(s, e, master), o, u) <==> !Strands(s, e, o, u)
  {
    Promises(s, e, master, o, u);
  }

  lemma TagLocks(s: System, e: Step, master: string -> bool, o: string, u: string)
    requires e.DisableOne? && e.thread in s.threads && Sane(s, master) && Locked(s, o, u)
    ensures Locked(Apply(s, e, master), o, u)
  {
    Promises(s, e, master, o, u);
  }

  lemma ReleaseIff(s: System, e: Step, master: string -> bool, o: string, u: string)
    requires (e.EnableList? || e.EnableOne?) && e.thread in s.threads && Sane(s, master) && Caused(s, o, u) && Locked(s, o, u)
    ensures Caused(Apply(s, e, master), o, u) <==> !Strands(s, e, o, u)
    ensures Locked(Apply(s, e, master), o, u) <==> !LetsIn(s, e, o, u)
  {
    Promises(s, e, master, o, u);
  }

  lemma LiftIff(s: System, e: Step, master: string -> bool, o: string, u: string)
    requires (e.EnablePut? || e.DeleteDirectory? || e.DeleteStore?) && e.thread in s.threads && Sane(s, master) && Caused(s, o, u) && Locked(s, o, u)
    ensures Caused(Apply(s, e, master), o, u) <==> !Strands(s, e, o, u)
    ensures Locked(Apply(s, e, master), o, u) <==> !LetsIn(s, e, o, u)
  {
    Promises(s, e, master, o, u);
  }

  lemma LeaveIff(s: System, e: Step, master: string -> bool, o: string, u: string)
    requires e.LeaveRead? && e.thread in s.threads && Sane(s, master) && Caused(s, o, u) && Locked(s, o, u)
    ensures Caused(Apply(s, e, master), o, u) <==> !Strands(s, e, o, u)
    ensures Locked(Apply(s, e, master), o, u) <==> !LetsIn(s, e, o, u)
  {
    Promises(s, e, master, o, u);
  }

  lemma FreeIff(s: System, e: Step, master: string -> bool, o: string, u: string)
    requires e.FreeOne? && e.thread in s.threads && Sane(s, master) && Caused(s, o, u) && Locked(s, o, u)
    ensures Caused(Apply(s, e, master), o, u) <==> !Strands(s, e, o, u)
    ensures Locked(Apply(s, e, master), o, u) <==> !LetsIn(s, e, o, u)
  {
    Promises(s, e, master, o, u);
  }

  lemma StopIff(s: System, e: Step, master: string -> bool, o: string, u: string)
    requires (e.Stop?) && e.thread in s.threads && Sane(s, master) && Caused(s, o, u) && Locked(s, o, u)
    ensures Caused(Apply(s, e, master), o, u) <==> !Strands(s, e, o, u)
    ensures Locked(Apply(s, e, master), o, u) <==> !LetsIn(s, e, o, u)
  {
    Promises(s, e, master, o, u);
  }

  /** Each step of any overlapping requests keeps every lockout caused iff it strands none, and every
      cause locked iff it lets nobody in. */
  lemma StepKeepsIff(s: System, e: Step, master: string -> bool, o: string, u: string)
    requires Sane(s, master) && Legal(s, e) && Caused(s, o, u) && Locked(s, o, u) && !master(u)
    ensures Caused(Apply(s, e, master), o, u) <==> !Strands(s, e, o, u)
    ensures Locked(Apply(s, e, master), o, u) <==> !LetsIn(s, e, o, u)
  {
    if Begins(e) {
      BeginKeeps(s, e, master, o, u);
    } else if e.BanUser? || e.UnbanUser? {
      var v := Apply(s, e, master);
      assert v.threads == s.threads && (Tagged(v, o, u) <==> Tagged(s, o, u));
      assert Relieved(v, o, u) <==> Relieved(s, o, u);
      assert Covered(v, o, u) <==> Covered(s, o, u);
    } else if e.thread in s.threads {
      if e.PostPut? || e.AddWrite? {
        JoinIff(s, e, master, o, u);
      } else if e.DisablePut? || e.DisableList? {
        FlagIff(s, e, master, o, u);
      } else if e.DisableOne? {
        TagIff(s, e, master, o, u);
        TagLocks(s, e, master, o, u);
      } else if e.EnableList? || e.EnableOne? {
        ReleaseIff(s, e, master, o, u);
      } else if e.LeaveRead? {
        LeaveIff(s, e, master, o, u);
      } else if e.FreeOne? {
        FreeIff(s, e, master, o, u);
      } else if e.Stop? {
        StopIff(s, e, master, o, u);
      } else {
        LiftIff(s, e, master, o, u);
      }
    }
  }

  lemma StepKeepsSane(s: System, e: Step, master: string -> bool)
    requires Sane(s, master)
    ensures Sane(Apply(s, e, master), master)
  {
    if Begins(e) { BeginKeepsSane(s, e, master); } else { ContinueKeepsSane(s, e, master); }
  }

  ghost predicate NeverSlips(s: System, steps: seq<Step>, master: string -> bool, o: string, u: string)
    decreases |steps|
  {
    steps != [] ==>
      && !Strands(s, steps[0], o, u) && !LetsIn(s, steps[0], o, u)
      && NeverSlips(Apply(s, steps[0], master), steps[1..], master, o, u)
  }

  ghost predicate SoundThroughout(s: System, steps: seq<Step>, master: string -> bool, o: string, u: string)
    decreases |steps|
  {
    && Caused(s, o, u) && Locked(s, o, u)
    && (steps != [] ==> SoundThroughout(Apply(s, steps[0], master), steps[1..], master, o, u))
  }

  /** The lockout theorem, exact over whole runs: for every org and account, lockouts have their cause
      and causes their lockout in every state iff no step strands one or lets one in. In all runs,
      an account can log in iff no reason is recorded. */
  lemma {:induction false} LockoutsExactIff(s: System, steps: seq<Step>, master: string -> bool, o: string, u: string)
    requires Sane(s, master) && LegalRun(s, steps, master) && Caused(s, o, u) && Locked(s, o, u) && !master(u)
    ensures SoundThroughout(s, steps, master, o, u) <==> NeverSlips(s, steps, master, o, u)
    ensures Sane(Exec(s, steps, master), master)
    ensures NeverSlips(s, steps, master, o, u) ==> Caused(Exec(s, steps, master), o, u) && Locked(Exec(s, steps, master), o, u)
    decreases |steps|
  {
    if steps != [] {
      var v := Apply(s, steps[0], master);
      StepKeepsIff(s, steps[0], master, o, u);
      StepKeepsSane(s, steps[0], master);
      if !Strands(s, steps[0], o, u) && !LetsIn(s, steps[0], o, u) {
        LockoutsExactIff(v, steps[1..], master, o, u);
      } else {
        SaneForever(v, steps[1..], master);
      }
    }
  }

  lemma {:induction false} SaneForever(s: System, steps: seq<Step>, master: string -> bool)
    requires Sane(s, master)
    ensures Sane(Exec(s, steps, master), master)
    decreases |steps|
  {
    if steps != [] {
      StepKeepsSane(s, steps[0], master);
      SaneForever(Apply(s, steps[0], master), steps[1..], master);
    }
  }

  /** No request on the org is under way. */
  ghost predicate AtRest(s: System, o: string) {
    forall t :: t in s.threads ==> s.threads[t].org != o
  }

  const START := System(map[], map[], map[], map[])

  /** At rest after a run without slips, an org locks an account out iff the org exists, is Disabled and
      has the account as a member; and then the account cannot log in. */
  lemma AtRestLockedIffSuspended(steps: seq<Step>, master: string -> bool, o: string, u: string)
    requires LegalRun(START, steps, master) && NeverSlips(START, steps, master, o, u) && !master(u)
    requires AtRest(Exec(START, steps, master), o)
    ensures var t := Exec(START, steps, master);
            (Tagged(t, o, u) <==> Suspends(t, o, u)) && (Suspends(t, o, u) ==> u in t.accounts && !t.accounts[u].enabled)
  {
    LockoutsExactIff(START, steps, master, o, u);
  }

  /** A ban holds over every interleaving: a banned account stays banned and unable to log in until an
      administrator enables it. */
  lemma {:induction false} BannedStays(s: System, steps: seq<Step>, master: string -> bool, u: string)
    requires u in s.accounts && s.accounts[u].banned && !s.accounts[u].enabled
    requires forall i :: 0 <= i < |steps| ==> steps[i] != UnbanUser(u)
    ensures var t := Exec(s, steps, master); u in t.accounts && t.accounts[u].banned && !t.accounts[u].enabled
    decreases |steps|
  {
    if steps != [] {
      assert steps[0] != UnbanUser(u);
      assert forall i :: 0 <= i < |steps[1..]| ==> steps[1..][i] == steps[i + 1];
      BanSurvives(s, steps[0], master, u);
      BannedStays(Apply(s, steps[0], master), steps[1..], master, u);
    }
  }

  lemma BanSurvives(s: System, e: Step, master: string -> bool, u: string)
    requires u in s.accounts && s.accounts[u].banned && !s.accounts[u].enabled && e != UnbanUser(u)
    ensures var t := Apply(s, e, master); u in t.accounts && t.accounts[u].banned && !t.accounts[u].enabled
  {
  }

  lemma BanHolds(s: System, steps: seq<Step>, master: string -> bool, u: string)
    requires u in s.accounts && !master(u) && forall i :: 0 <= i < |steps| ==> steps[i] != UnbanUser(u)
    ensures var t := Exec(Apply(s, BanUser(u), master), steps, master);
            u in t.accounts && t.accounts[u].banned && !t.accounts[u].enabled
  {
    BannedStays(Apply(s, BanUser(u), master), steps, master, u);
  }

  // The two races that whole requests hide.

  lemma FiveSteps(s: System, master: string -> bool, a: Step, b: Step, c: Step, d: Step, e: Step)
    requires var s1 := Apply(s, a, master); var s2 := Apply(s1, b, master); var s3 := Apply(s2, c, master); var s4 := Apply(s3, d, master);
             Legal(s, a) && Legal(s1, b) && Legal(s2, c) && Legal(s3, d) && Legal(s4, e)
    ensures LegalRun(s, [a, b, c, d, e], master)
    ensures Exec(s, [a, b, c, d, e], master) == Apply(Apply(Apply(Apply(Apply(s, a, master), b, master), c, master), d, master), e, master)
  {
    var x := [a, b, c, d, e];
    var s1 := Apply(s, a, master);
    var s2 := Apply(s1, b, master);
    var s3 := Apply(s2, c, master);
    var s4 := Apply(s3, d, master);
    var s5 := Apply(s4, e, master);
    assert x[1..][1..][1..][1..][1..] == [];
    assert Exec(s5, [], master) == s5 && LegalRun(s5, [], master);
    assert Exec(s4, x[1..][1..][1..][1..], master) == s5 && LegalRun(s4, x[1..][1..][1..][1..], master);
    assert Exec(s3, x[1..][1..][1..], master) == s5 && LegalRun(s3, x[1..][1..][1..], master);
    assert Exec(s2, x[1..][1..], master) == s5 && LegalRun(s2, x[1..][1..], master);
    assert Exec(s1, x[1..], master) == s5 && LegalRun(s1, x[1..], master);
  }

  /** A member added by a request that was checked before the suspension and writes after its listing
      is in the Disabled org and can log in. */
  lemma LateAddEscapes(s: System, master: string -> bool, o: string, u: string, t1: nat, t2: nat)
    requires t1 != t2 && t1 !in s.threads && t2 !in s.threads && o in s.orgs && !s.orgs[o] && u !in s.accounts
    ensures var steps := [AddCheck(t1, o, u), DisableRead(t2, o), DisablePut(t2), DisableList(t2), AddWrite(t1)];
            var v := Exec(s, steps, master);
            LegalRun(s, steps, master) && Suspends(v, o, u) && u in v.accounts && v.accounts[u].enabled
  {
    FiveSteps(s, master, AddCheck(t1, o, u), DisableRead(t2, o), DisablePut(t2), DisableList(t2), AddWrite(t1));
  }

  /** A member removed between the listing of a suspension and its turn is tagged after its removal
      is over: the lockout has no cause. */
  lemma RemovalInsideDisableStrands(s: System, master: string -> bool, o: string, u: string, t1: nat, t2: nat)
    requires t1 != t2 && t2 !in s.threads && t1 in s.threads && s.threads[t1] == Disabling(o) && o in s.orgs && s.orgs[o]
    requires u in Members(s, o) && u in s.accounts && !master(u)
    ensures var steps := [DisableList(t1), Leave(t2, o, u), LeaveRead(t2), FreeOne(t2), DisableOne(t1, u)];
            var v := Exec(s, steps, master);
            LegalRun(s, steps, master) && Tagged(v, o, u) && u !in Members(v, o)
  {
    var s1 := Apply(s, DisableList(t1), master);
    assert u in s1.threads[t1].todo && s1.members == s.members && s1.accounts == s.accounts;
    RemovalPasses(s1, master, o, u, t1, t2);
    FiveSteps(s, master, DisableList(t1), Leave(t2, o, u), LeaveRead(t2), FreeOne(t2), DisableOne(t1, u));
  }

  lemma RemovalPasses(s: System, master: string -> bool, o: string, u: string, t1: nat, t2: nat)
    requires t1 != t2 && t2 !in s.threads && t1 in s.threads && o in s.orgs && s.orgs[o] && u in Members(s, o) && u in s.accounts
    ensures var v := Apply(Apply(Apply(s, Leave(t2, o, u), master), LeaveRead(t2), master), FreeOne(t2), master);
            t1 in v.threads && v.threads[t1] == s.threads[t1] && u in v.accounts && u !in Members(v, o)
  {
    var v := Apply(Apply(s, Leave(t2, o, u), master), LeaveRead(t2), master);
    assert v.threads[t2] == Freeing(o, u) && v.threads[t1] == s.threads[t1] && u !in Members(v, o);
  }
}
