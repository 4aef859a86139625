/** Account lockouts and their reasons. An account may be suspended by any number of orgs and,
    separately, banned by an administrator; handlers that lift one reason must not lift another. */
module Suspension {

  /** `enabled` is what the identity provider checks at login. */
  datatype Account = Account(enabled: bool, orgs: set<string>, banned: bool)

  const FRESH_ACCOUNT := Account(true, {}, false)

  /** Org records with their Disabled flag, directory membership, and accounts. `loose` is history:
      (org, user) pairs whose removal was interrupted after the membership was already gone. */
  datatype State = State(
    orgs: map<string, bool>, members: map<string, set<string>>,
    accounts: map<string, Account>, loose: set<(string, string)>)

  // The directory's read-modify-write on one account.

  /** An account found disabled for no recorded reason is first given an administrator ban. */
  function Tag(a: Account, org: string): Account {
    Account(false, a.orgs + {org}, a.banned || (!a.enabled && a.orgs == {}))
  }

  function Untag(a: Account, org: string): Account {
    if org !in a.orgs then a
    else Account(!a.banned && a.orgs - {org} == {}, a.orgs - {org}, a.banned)
  }

  function Ban(a: Account): Account {
    Account(false, a.orgs, true)
  }

  function Unban(a: Account): Account {
    Account(a.orgs == {}, a.orgs, false)
  }

  /** Login is possible exactly when no reason to refuse it is recorded. */
  predicate Consistent(a: Account) {
    a.enabled <==> !a.banned && a.orgs == {}
  }

  /** On consistent accounts every reason is independent of every other: adding and lifting
      different reasons commute, and lifting undoes adding. */
  lemma ReasonsAreIndependent(a: Account, o: string, p: string)
    requires Consistent(a) && o != p
    ensures Consistent(Tag(a, o)) && Consistent(Untag(a, o)) && Consistent(Ban(a)) && Consistent(Unban(a))
    ensures Untag(Untag(a, o), p) == Untag(Untag(a, p), o)
    ensures Untag(Tag(a, p), o) == Tag(Untag(a, o), p)
    ensures Untag(Ban(a), o) == Ban(Untag(a, o)) && Untag(Unban(a), o) == Unban(Untag(a, o))
    ensures Tag(Ban(a), o) == Ban(Tag(a, o)) && Tag(Unban(a), o) == Unban(Tag(a, o))
    ensures o !in a.orgs ==> Untag(Tag(a, o), o) == a
    ensures !a.banned ==> Unban(Ban(a)) == a
    ensures Tag(a, o).orgs == a.orgs + {o} && Untag(a, o).orgs == a.orgs - {o} && Ban(a).orgs == Unban(a).orgs == a.orgs
    ensures Tag(a, o).banned == Untag(a, o).banned == a.banned && Ban(a).banned && !Unban(a).banned
  {
    assert (a.orgs - {o}) - {p} == (a.orgs - {p}) - {o};
    assert (a.orgs + {p}) - {o} == (a.orgs - {o}) + {p};
    if o !in a.orgs { assert (a.orgs + {o}) - {o} == a.orgs; }
    if o in a.orgs { assert o in a.orgs + {p} && (a.orgs - {o}) + {p} != {}; }
  }

  /** On any account at all: suspending and releasing leaves login possible iff it was possible before
      and no reason was recorded. An account found disabled for no recorded reason stays disabled. */
  lemma SuspensionUnlocksNothing(a: Account, o: string)
    requires o !in a.orgs
    ensures Untag(Tag(a, o), o).enabled <==> a.enabled && !a.banned && a.orgs == {}
  {
    assert (a.orgs + {o}) - {o} == a.orgs;
  }

  // Completed operations.

  function TagUsers(accounts: map<string, Account>, o: string, users: set<string>): map<string, Account> {
    map u | u in accounts :: if u in users then Tag(accounts[u], o) else accounts[u]
  }

  function UntagUsers(accounts: map<string, Account>, o: string, users: set<string>): map<string, Account> {
    map u | u in accounts :: if u in users then Untag(accounts[u], o) else accounts[u]
  }

  function MembersOf(s: State, o: string): set<string> {
    if o in s.members then s.members[o] else {}
  }

  /** Everybody in the org except master administrators. */
  function Suspendable(s: State, master: string -> bool, o: string): set<string> {
    set u | u in MembersOf(s, o) && !master(u)
  }

  function OrgDisabled(s: State, master: string -> bool, o: string): State {
    s.(orgs := s.orgs[o := true], accounts := TagUsers(s.accounts, o, Suspendable(s, master, o)))
  }

  function MembersEnabled(s: State, o: string): State {
    s.(accounts := UntagUsers(s.accounts, o, MembersOf(s, o)), loose := s.loose - (set u | u in MembersOf(s, o) :: (o, u)))
  }

  function OrgEnabled(s: State, o: string): State {
    MembersEnabled(s, o).(orgs := s.orgs[o := false])
  }

  function OrgDeleted(s: State, o: string): State {
    var t := MembersEnabled(s, o);
    t.(orgs := s.orgs - {o}, members := s.members - {o})
  }

  function Joined(s: State, o: string, u: string): State {
    s.(members := s.members[o := MembersOf(s, o) + {u}],
       accounts := if u in s.accounts then s.accounts else s.accounts[u := FRESH_ACCOUNT])
  }

  function Left(s: State, o: string, u: string): State {
    var t := s.(members := if o in s.members then s.members[o := s.members[o] - {u}] else s.members);
    if o in s.orgs && s.orgs[o]
    then t.(accounts := if u in s.accounts then s.accounts[u := Untag(s.accounts[u], o)] else s.accounts, loose := s.loose - {(o, u)})
    else t
  }

  datatype Op =
    | CreateOrg(org: string, admin: string)
    | DisableOrg(org: string)
    | EnableOrg(org: string)
    | DeleteOrg(org: string)
    | AddMember(org: string, user: string)
    | RemoveMember(org: string, user: string)
    | DisableUser(user: string)
    | EnableUser(user: string)

  /** A request for an unknown org is refused, as are new members of a suspended org and a ban of
      a master administrator. Re-posting a known org converges: it admits the caller. */
  function Apply(s: State, master: string -> bool, op: Op): State {
    match op
    case CreateOrg(o, u) => Joined(if o in s.orgs then s else s.(orgs := s.orgs[o := false]), o, u)
    case DisableOrg(o) => if o in s.orgs then OrgDisabled(s, master, o) else s
    case EnableOrg(o) => if o in s.orgs then OrgEnabled(s, o) else s
    case DeleteOrg(o) => if o in s.orgs then OrgDeleted(s, o) else s
    case AddMember(o, u) => if o in s.orgs && !s.orgs[o] then Joined(s, o, u) else s
    case RemoveMember(o, u) => if o in s.orgs then Left(s, o, u) else s
    case DisableUser(u) => if u in s.accounts && !master(u) then s.(accounts := s.accounts[u := Ban(s.accounts[u])]) else s
    case EnableUser(u) => if u in s.accounts then s.(accounts := s.accounts[u := Unban(s.accounts[u])]) else s
  }

  function Exec(s: State, master: string -> bool, ops: seq<Op>): State
    decreases |ops|
  {
    if ops == [] then s else Exec(Apply(s, master, ops[0]), master, ops[1..])
  }

  const START := State(map[], map[], map[], {})

  /** A suspension's cause is still there: the org exists, is Disabled, and has the member. */
  ghost predicate Caused(s: State, o: string, u: string) {
    o in s.orgs && s.orgs[o] && o in s.members && u in s.members[o]
  }

  ghost predicate Sound(s: State, master: string -> bool) {
    && (forall u :: u in s.accounts ==> Consistent(s.accounts[u]))
    && (forall u, o :: u in s.accounts && o in s.accounts[u].orgs ==> Caused(s, o, u) || (o, u) in s.loose)
    && (forall u :: u in s.accounts && master(u) ==> s.accounts[u] == FRESH_ACCOUNT)
  }

  lemma OrgOpKeepsSound(s: State, master: string -> bool, op: Op)
    requires Sound(s, master) && (op.DisableOrg? || op.EnableOrg? || op.DeleteOrg?)
    ensures Sound(Apply(s, master, op), master) && Apply(s, master, op).loose <= s.loose
  {
  }

  lemma MemberOpKeepsSound(s: State, master: string -> bool, op: Op)
    requires Sound(s, master) && (op.CreateOrg? || op.AddMember? || op.RemoveMember?)
    ensures Sound(Apply(s, master, op), master) && Apply(s, master, op).loose <= s.loose
  {
  }

  lemma ApplyKeepsSound(s: State, master: string -> bool, op: Op)
    requires Sound(s, master)
    ensures Sound(Apply(s, master, op), master) && Apply(s, master, op).loose <= s.loose
  {
    if op.DisableOrg? || op.EnableOrg? || op.DeleteOrg? {
      OrgOpKeepsSound(s, master, op);
    } else if op.CreateOrg? || op.AddMember? || op.RemoveMember? {
      MemberOpKeepsSound(s, master, op);
    }
  }

  /** Over every run of completed operations: an account can log in iff no reason is recorded,
      each recorded org still exists, is Disabled and has the member, and master administrators
      are never locked out. */
  lemma {:induction false} NoLockoutOutlivesItsCause(s: State, master: string -> bool, ops: seq<Op>)
    requires Sound(s, master) && s.loose == {}
    ensures var t := Exec(s, master, ops);
            && Sound(t, master) && t.loose == {}
            && (forall u, o :: u in t.accounts && o in t.accounts[u].orgs ==> Caused(t, o, u))
    decreases |ops|
  {
    if ops != [] {
      ApplyKeepsSound(s, master, ops[0]);
      NoLockoutOutlivesItsCause(Apply(s, master, ops[0]), master, ops[1..]);
    }
  }

  /** A ban holds: after an administrator disables a known account, other than a master
      administrator's, it cannot log in until an administrator enables it, whatever orgs suspend,
      release or delete meanwhile. */
  lemma {:induction false} BanHolds(s: State, master: string -> bool, u: string, ops: seq<Op>)
    requires u in s.accounts && !master(u) && forall i :: 0 <= i < |ops| ==> ops[i] != EnableUser(u)
    ensures var t := Exec(Apply(s, master, DisableUser(u)), master, ops);
            u in t.accounts && t.accounts[u].banned && !t.accounts[u].enabled
  {
    BannedStays(Apply(s, master, DisableUser(u)), master, u, ops);
  }

  lemma {:induction false} BannedStays(s: State, master: string -> bool, u: string, ops: seq<Op>)
    requires u in s.accounts && s.accounts[u].banned && !s.accounts[u].enabled
    requires forall i :: 0 <= i < |ops| ==> ops[i] != EnableUser(u)
    ensures var t := Exec(s, master, ops); u in t.accounts && t.accounts[u].banned && !t.accounts[u].enabled
    decreases |ops|
  {
    if ops != [] {
      assert ops[0] != EnableUser(u);
      assert forall i :: 0 <= i < |ops[1..]| ==> ops[1..][i] == ops[i + 1];
      BannedStays(Apply(s, master, ops[0]), master, u, ops[1..]);
    }
  }

  /** And it ends there: enabling a known account lifts the ban and nothing else, so the account can
      log in iff no org suspends it. Nobody else's account moves either way. */
  lemma UserOpsAreExact(s: State, master: string -> bool, u: string)
    ensures var t := Apply(s, master, EnableUser(u));
            && t == s.(accounts := t.accounts) && t.accounts.Keys == s.accounts.Keys
            && (forall v :: v in s.accounts && v != u ==> t.accounts[v] == s.accounts[v])
            && (u in s.accounts ==>
                  && t.accounts[u].orgs == s.accounts[u].orgs && !t.accounts[u].banned
                  && (t.accounts[u].enabled <==> s.accounts[u].orgs == {}))
    ensures var t := Apply(s, master, DisableUser(u));
            && t == s.(accounts := t.accounts) && t.accounts.Keys == s.accounts.Keys
            && (forall v :: v in s.accounts && (v != u || master(u)) ==> t.accounts[v] == s.accounts[v])
            && (u in s.accounts && !master(u) ==> t.accounts[u].orgs == s.accounts[u].orgs && t.accounts[u].banned && !t.accounts[u].enabled)
  {
  }

  ghost predicate SameButAccounts(s: State, t: State, orgs: map<string, bool>, members: map<string, set<string>>) {
    t.orgs == orgs && t.members == members && t.accounts.Keys == s.accounts.Keys
  }

  /** Only the org's own reason goes, and only from these users; login follows the reasons left. */
  ghost predicate Releases(s: State, t: State, o: string, users: set<string>) {
    forall u :: u in s.accounts && u in t.accounts ==>
      if u in users
      then && t.accounts[u].orgs == s.accounts[u].orgs - {o} && t.accounts[u].banned == s.accounts[u].banned
           && (t.accounts[u].enabled <==> !s.accounts[u].banned && s.accounts[u].orgs <= {o})
      else t.accounts[u] == s.accounts[u]
  }

  /** Suspending, enabling and deleting a known org, in fields: the flag, the records, and exactly
      whose account gains or loses the org's reason. Requests for an unknown org change nothing. */
  lemma OrgOpsAreExact(s: State, master: string -> bool, o: string)
    requires Sound(s, master)
    ensures o !in s.orgs ==> Apply(s, master, DisableOrg(o)) == Apply(s, master, EnableOrg(o)) == Apply(s, master, DeleteOrg(o)) == s
    ensures o in s.orgs ==>
              var t := Apply(s, master, DisableOrg(o));
              && SameButAccounts(s, t, s.orgs[o := true], s.members)
              && (forall u :: u in s.accounts ==>
                    if o in s.members && u in s.members[o] && !master(u)
                    then t.accounts[u] == Account(false, s.accounts[u].orgs + {o}, s.accounts[u].banned)
                    else t.accounts[u] == s.accounts[u])
    ensures o in s.orgs ==>
              var t := Apply(s, master, EnableOrg(o));
              SameButAccounts(s, t, s.orgs[o := false], s.members) && Releases(s, t, o, if o in s.members then s.members[o] else {})
    ensures o in s.orgs ==>
              var t := Apply(s, master, DeleteOrg(o));
              SameButAccounts(s, t, s.orgs - {o}, s.members - {o}) && Releases(s, t, o, if o in s.members then s.members[o] else {})
  {
    assert forall a: Account, x: string :: Consistent(a) ==> Untag(a, x).orgs == a.orgs - {x};
  }

  /** Joining and leaving, in fields: who is a member of what, whose account is opened, and whose
      reason is lifted. A new member of a suspended org is refused. */
  lemma MemberOpsAreExact(s: State, master: string -> bool, o: string, u: string)
    requires Sound(s, master)
    ensures var t := Apply(s, master, AddMember(o, u));
            if o in s.orgs && !s.orgs[o]
            then && t.orgs == s.orgs && t.members == s.members[o := (if o in s.members then s.members[o] else {}) + {u}]
                 && t.accounts == (if u in s.accounts then s.accounts else s.accounts[u := Account(true, {}, false)])
            else t == s
    ensures var t := Apply(s, master, CreateOrg(o, u));
            && t.orgs == (if o in s.orgs then s.orgs else s.orgs[o := false])
            && t.members == s.members[o := (if o in s.members then s.members[o] else {}) + {u}]
            && t.accounts == (if u in s.accounts then s.accounts else s.accounts[u := Account(true, {}, false)])
    ensures var t := Apply(s, master, RemoveMember(o, u));
            if o in s.orgs
            then && SameButAccounts(s, t, s.orgs, if o in s.members then s.members[o := s.members[o] - {u}] else s.members)
                 && Releases(s, t, o, if s.orgs[o] then {u} else {})
            else t == s
  {
    assert forall a: Account, x: string :: Consistent(a) ==> Untag(a, x).orgs == a.orgs - {x};
  }

  // The other direction: a suspended org locks out all of its members.

  ghost predicate MembersKnown(s: State) {
    forall o, u :: o in s.members && u in s.members[o] ==> u in s.accounts
  }

  /** Every member of a Disabled org, master administrators apart, carries the org's reason. */
  ghost predicate AllLocked(s: State, master: string -> bool) {
    forall o, u :: Caused(s, o, u) && !master(u) ==> u in s.accounts && o in s.accounts[u].orgs
  }

  /** Re-posting a Disabled org for a user it is not locking out. */
  predicate AdmitsUnlocked(s: State, master: string -> bool, op: Op) {
    && op.CreateOrg? && op.org in s.orgs && s.orgs[op.org] && !master(op.admin)
    && !(op.admin in s.accounts && op.org in s.accounts[op.admin].orgs)
  }

  lemma ReleaseKeepsLocked(s: State, master: string -> bool, op: Op)
    requires MembersKnown(s) && AllLocked(s, master) && (op.EnableOrg? || op.DeleteOrg? || op.RemoveMember?)
    ensures MembersKnown(Apply(s, master, op)) && AllLocked(Apply(s, master, op), master)
  {
    var t := Apply(s, master, op);
    forall o, u | Caused(t, o, u) && !master(u) ensures u in t.accounts && o in t.accounts[u].orgs {
      assert Caused(s, o, u);
    }
  }

  lemma JoinKeepsLockedIff(s: State, master: string -> bool, op: Op)
    requires MembersKnown(s) && AllLocked(s, master) && (op.CreateOrg? || op.AddMember?)
    ensures var t := Apply(s, master, op);
            MembersKnown(t) && (AllLocked(t, master) <==> !AdmitsUnlocked(s, master, op))
  {
    var t := Apply(s, master, op);
    if AdmitsUnlocked(s, master, op) {
      assert Caused(t, op.org, op.admin);
    } else {
      forall o, u | Caused(t, o, u) && !master(u) ensures u in t.accounts && o in t.accounts[u].orgs {
        if !Caused(s, o, u) { assert op.CreateOrg? && o == op.org && u == op.admin; }
      }
    }
  }

  /** Each completed operation keeps all members of Disabled orgs locked out iff it is not a
      re-post that admits someone into a Disabled org. */
  lemma OpKeepsAllLockedIff(s: State, master: string -> bool, op: Op)
    requires MembersKnown(s) && AllLocked(s, master)
    ensures var t := Apply(s, master, op);
            MembersKnown(t) && (AllLocked(t, master) <==> !AdmitsUnlocked(s, master, op))
  {
    var t := Apply(s, master, op);
    if op.EnableOrg? || op.DeleteOrg? || op.RemoveMember? {
      ReleaseKeepsLocked(s, master, op);
    } else if op.CreateOrg? || op.AddMember? {
      JoinKeepsLockedIff(s, master, op);
    } else {
      forall o, u | Caused(t, o, u) && !master(u) ensures u in t.accounts && o in t.accounts[u].orgs {
        assert Caused(s, o, u) || (op.DisableOrg? && o == op.org && u in Suspendable(s, master, o));
      }
    }
  }

  predicate NeverAdmitsUnlocked(s: State, master: string -> bool, ops: seq<Op>)
    decreases |ops|
  {
    ops != [] ==> !AdmitsUnlocked(s, master, ops[0]) && NeverAdmitsUnlocked(Apply(s, master, ops[0]), master, ops[1..])
  }

  /** Over every run without such a re-post, no member of a Disabled org can log in, whatever bans
      and other orgs' suspensions come and go. */
  lemma {:induction false} SuspendedOrgsLockEveryone(s: State, master: string -> bool, ops: seq<Op>)
    requires Sound(s, master) && MembersKnown(s) && AllLocked(s, master) && NeverAdmitsUnlocked(s, master, ops)
    ensures var t := Exec(s, master, ops);
            && MembersKnown(t) && AllLocked(t, master)
            && (forall o, u :: Caused(t, o, u) && !master(u) ==> !t.accounts[u].enabled)
    decreases |ops|
  {
    if ops != [] {
      ApplyKeepsSound(s, master, ops[0]);
      OpKeepsAllLockedIff(s, master, ops[0]);
      SuspendedOrgsLockEveryone(Apply(s, master, ops[0]), master, ops[1..]);
    }
  }

  /** With one, every such run reaches an enabled account inside a Disabled org. */
  lemma RepostAdmitsIntoDisabledOrg(master: string -> bool, o: string, a: string, b: string)
    requires a != b && !master(b)
    ensures var t := Exec(START, master, [CreateOrg(o, a), DisableOrg(o), CreateOrg(o, b)]);
            Caused(t, o, b) && b in t.accounts && t.accounts[b].enabled
  {
    var ops := [CreateOrg(o, a), DisableOrg(o), CreateOrg(o, b)];
    var s1 := Apply(START, master, ops[0]);
    var s2 := Apply(s1, master, ops[1]);
    var s3 := Apply(s2, master, ops[2]);
    assert Exec(s3, master, ops[1..][1..][1..]) == s3;
    assert Exec(s2, master, ops[1..][1..]) == s3;
    assert Exec(s1, master, ops[1..]) == s3;
    assert Exec(START, master, ops) == s3;
  }

  /** What an interrupted removal leaves: the membership gone, the org's reason still recorded. */
  function HalfLeft(s: State, o: string, u: string): State {
    s.(members := if o in s.members then s.members[o := s.members[o] - {u}] else s.members, loose := s.loose + {(o, u)})
  }

  /** Retrying the removal releases the account iff the org is still Disabled at the retry. */
  lemma RetriedRemovalReleasesIff(s: State, o: string, u: string)
    requires o in s.orgs && u in s.accounts && o in s.accounts[u].orgs
    ensures o !in Left(HalfLeft(s, o, u), o, u).accounts[u].orgs <==> s.orgs[o]
  {
  }

  /** Otherwise it is stranded: enabling or deleting the org looks only at current members, so after
      an interrupted removal the reason survives both. */
  lemma EnableAndDeleteMissTheRemoved(s: State, o: string, u: string)
    requires o in s.orgs && u in s.accounts && o in s.accounts[u].orgs
    ensures var t := HalfLeft(s, o, u);
            && o in OrgEnabled(t, o).accounts[u].orgs && !OrgEnabled(t, o).orgs[o]
            && o in OrgDeleted(t, o).accounts[u].orgs && o !in OrgDeleted(t, o).orgs
  {
    assert u !in MembersOf(HalfLeft(s, o, u), o);
  }

  // The handlers, with a directory or store call that may fail at any point.

  lemma TagOneMore(accounts: map<string, Account>, o: string, users: set<string>, u: string)
    requires u in accounts && u !in users
    ensures TagUsers(accounts, o, users)[u] == accounts[u]
    ensures TagUsers(accounts, o, users + {u}) == TagUsers(accounts, o, users)[u := Tag(accounts[u], o)]
  {
  }

  lemma UntagOneMore(accounts: map<string, Account>, o: string, users: set<string>, u: string)
    requires u in accounts && u !in users
    ensures UntagUsers(accounts, o, users)[u] == accounts[u]
    ensures UntagUsers(accounts, o, users + {u}) == UntagUsers(accounts, o, users)[u := Untag(accounts[u], o)]
  {
  }

  lemma NobodyTagged(accounts: map<string, Account>, o: string, users: set<string>)
    requires forall u :: u in users ==> u !in accounts
    ensures TagUsers(accounts, o, users) == accounts && UntagUsers(accounts, o, users) == accounts
  {
  }

  lemma UnknownUsersDontCount(accounts: map<string, Account>, o: string, users: set<string>, more: set<string>)
    requires forall u :: u in more ==> u !in accounts
    ensures TagUsers(accounts, o, users + more) == TagUsers(accounts, o, users)
    ensures UntagUsers(accounts, o, users + more) == UntagUsers(accounts, o, users)
  {
  }

  /** Tagging part of a suspended org's members is sound at every point. */
  lemma PartlyTaggedIsSound(s: State, master: string -> bool, o: string, users: set<string>)
    requires Sound(s, master) && o in s.orgs && s.orgs[o] && users <= Suspendable(s, master, o)
    ensures Sound(s.(accounts := TagUsers(s.accounts, o, users)), master)
  {
  }

  lemma PartlyUntaggedIsSound(s: State, master: string -> bool, o: string, users: set<string>)
    requires Sound(s, master)
    ensures Sound(s.(accounts := UntagUsers(s.accounts, o, users), loose := s.loose - (set u | u in users :: (o, u))), master)
  {
  }

  // Where a request may stop.

  function PartlyDisabled(s: State, o: string, users: set<string>): State {
    s.(orgs := s.orgs[o := true], accounts := TagUsers(s.accounts, o, users))
  }

  function PartlyEnabled(s: State, o: string, users: set<string>): State {
    s.(accounts := UntagUsers(s.accounts, o, users), loose := s.loose - (set u | u in users :: (o, u)))
  }

  ghost predicate StoppedDisabling(s: State, t: State, master: string -> bool, o: string) {
    t == s || exists users :: users <= Suspendable(s, master, o) && t == PartlyDisabled(s, o, users)
  }

  ghost predicate StoppedEnabling(s: State, t: State, o: string) {
    exists users :: users <= MembersOf(s, o) && t == PartlyEnabled(s, o, users)
  }

  lemma NobodyEnabled(s: State, o: string)
    ensures StoppedEnabling(s, s, o)
  {
    NobodyTagged(s.accounts, o, {});
    assert s.loose - (set u | u in {} :: (o, u)) == s.loose;
    assert PartlyEnabled(s, o, {}) == s;
  }

  /** The registry's handlers over the org store and the directory. A request stops at its first
      failing call; `calls` is how many of its outside calls, reads included, succeed before that. */
  class Handlers {
    const master: string -> bool
    var orgs: map<string, bool>
    var members: map<string, set<string>>
    var accounts: map<string, Account>
    ghost var loose: set<(string, string)>

    constructor (m: string -> bool)
      ensures master == m && View() == START && Valid()
    {
      master := m;
      orgs, members, accounts, loose := map[], map[], map[], {};
    }

    ghost function View(): State
      reads this
    {
      State(orgs, members, accounts, loose)
    }

    ghost predicate Valid()
      reads this
    {
      Sound(View(), master)
    }

    method TagEach(o: string, users: set<string>, calls: nat) returns (ok: bool, ghost done: set<string>)
      modifies this`accounts
      ensures accounts == TagUsers(old(accounts), o, done) && done <= users && (ok ==> done == users)
      ensures ok <==> |users| <= calls
    {
      var todo, left := users, calls;
      done := {};
      NobodyTagged(accounts, o, {});
      while todo != {}
        invariant done == users - todo && todo <= users && |users| - |todo| == calls - left
        invariant accounts == TagUsers(old(accounts), o, done)
        decreases |todo|
      {
        if left == 0 { return false, done; }
        left := left - 1;
        var u :| u in todo;
        if u in accounts {
          TagOneMore(old(accounts), o, done, u);
          accounts := accounts[u := Tag(accounts[u], o)];
        } else {
          UnknownUsersDontCount(old(accounts), o, done, {u});
        }
        todo, done := todo - {u}, done + {u};
      }
      return true, done;
    }

    method UntagEach(o: string, users: set<string>, calls: nat) returns (ok: bool, left: nat, ghost done: set<string>)
      modifies this`accounts
      ensures accounts == UntagUsers(old(accounts), o, done) && done <= users && (ok ==> done == users)
      ensures (ok <==> |users| <= calls) && (ok ==> left == calls - |users|)
    {
      var todo := users;
      left, done := calls, {};
      NobodyTagged(accounts, o, {});
      while todo != {}
        invariant done == users - todo && todo <= users && |users| - |todo| == calls - left
        invariant accounts == UntagUsers(old(accounts), o, done)
        decreases |todo|
      {
        if left == 0 { return false, 0, done; }
        left := left - 1;
        var u :| u in todo;
        if u in accounts {
          UntagOneMore(old(accounts), o, done, u);
          accounts := accounts[u := Untag(accounts[u], o)];
        } else {
          UnknownUsersDontCount(old(accounts), o, done, {u});
        }
        todo, done := todo - {u}, done + {u};
      }
      return true, left, done;
    }

    /** Flag first, members after: an interrupted suspension never tags without the flag. The
        org's agents come last; `agents` is whether their cascade completes. */
    method Disable(o: string, calls: nat, agents: bool) returns (ok: bool)
      requires Valid()
      modifies this`orgs, this`accounts
      ensures Valid()
      ensures ok <==> calls > 0 && (o in old(orgs) ==> calls >= 3 + |Suspendable(old(View()), master, o)| && agents)
      ensures ok ==> View() == Apply(old(View()), master, DisableOrg(o))
      ensures !ok ==> StoppedDisabling(old(View()), View(), master, o)
    {
      if calls == 0 { return false; }
      if o !in orgs { return true; }
      if calls == 1 { return false; }
      ghost var s := View();
      NobodyTagged(accounts, o, {});
      assert TagUsers(accounts, o, {}) == accounts;
      orgs := orgs[o := true];
      assert View() == PartlyDisabled(s, o, {});
      assert Sound(View(), master);
      if calls == 2 { return false; }
      var users := set u | u in (if o in members then members[o] else {}) && !master(u);
      assert users == Suspendable(s, master, o);
      ghost var flagged, done := View(), {};
      ok, done := TagEach(o, users, calls - 3);
      PartlyTaggedIsSound(flagged, master, o, done);
      assert View() == PartlyDisabled(s, o, done);
      ok := ok && agents;
    }

    /** Lifts the org's own reason from each current member. */
    method EnableMembers(o: string, calls: nat) returns (ok: bool, left: nat)
      requires Valid()
      modifies this`accounts, this`loose
      ensures Valid()
      ensures ok <==> calls >= 1 + |MembersOf(old(View()), o)|
      ensures ok ==> View() == MembersEnabled(old(View()), o) && left == calls - 1 - |MembersOf(old(View()), o)|
      ensures StoppedEnabling(old(View()), View(), o)
    {
      ghost var s := View();
      NobodyEnabled(s, o);
      if calls == 0 { return false, 0; }
      var users := if o in members then members[o] else {};
      ghost var done;
      ok, left, done := UntagEach(o, users, calls - 1);
      loose := loose - (set u | u in done :: (o, u));
      PartlyUntaggedIsSound(s, master, o, done);
      assert View() == PartlyEnabled(s, o, done);
    }

    /** Members first, flag last: an interrupted enable leaves the flag armed. */
    method Enable(o: string, calls: nat) returns (ok: bool)
      requires Valid()
      modifies this`orgs, this`accounts, this`loose
      ensures Valid()
      ensures ok <==> calls > 0 && (o in old(orgs) ==> calls >= 3 + |MembersOf(old(View()), o)|)
      ensures ok ==> View() == Apply(old(View()), master, EnableOrg(o))
      ensures !ok ==> StoppedEnabling(old(View()), View(), o)
    {
      ApplyKeepsSound(View(), master, EnableOrg(o));
      NobodyEnabled(View(), o);
      if calls == 0 { return false; }
      if o !in orgs { return true; }
      var left;
      ok, left := EnableMembers(o, calls - 1);
      if !ok || left == 0 { return false; }
      orgs := orgs[o := false];
    }

    /** Members are released before the org disappears from the directory and then the store. */
    method Delete(o: string, calls: nat) returns (ok: bool)
      requires Valid()
      modifies this`orgs, this`members, this`accounts, this`loose
      ensures Valid()
      ensures ok <==> calls > 0 && (o in old(orgs) ==> calls >= 5 + |MembersOf(old(View()), o)|)
      ensures ok ==> View() == Apply(old(View()), master, DeleteOrg(o))
      ensures !ok ==> || StoppedEnabling(old(View()), View(), o)
                      || View() == MembersEnabled(old(View()), o).(members := old(members) - {o})
    {
      ApplyKeepsSound(View(), master, DeleteOrg(o));
      NobodyEnabled(View(), o);
      if calls == 0 { return false; }
      if o !in orgs { return true; }
      var left;
      ok, left := EnableMembers(o, calls - 1);
      if !ok || left <= 1 { return false; }
      members := members - {o};
      if left == 2 { return false; }
      orgs := orgs - {o};
    }

    /** Membership first, the org's own reason after; `settled` is whether the agents of the removed
        member were settled in between. Only here can a reason be left without its member. */
    method Remove(o: string, u: string, calls: nat, settled: bool) returns (ok: bool)
      requires Valid()
      modifies this`members, this`accounts, this`loose
      ensures Valid()
      ensures ok <==> calls > 0 && (o in old(orgs) ==> settled && calls >= if old(orgs)[o] then 4 else 3)
      ensures ok ==> View() == Apply(old(View()), master, RemoveMember(o, u))
      ensures !ok ==> View() == old(View()) || View() == HalfLeft(old(View()), o, u)
    {
      ApplyKeepsSound(View(), master, RemoveMember(o, u));
      if calls == 0 { return false; }
      if o !in orgs { return true; }
      if calls == 1 { return false; }
      if o in members { members := members[o := members[o] - {u}]; }
      if calls == 2 || !settled || (orgs[o] && calls == 3) {
        loose := loose + {(o, u)};
        return false;
      }
      if orgs[o] {
        if u in accounts { accounts := accounts[u := Untag(accounts[u], o)]; }
        loose := loose - {(o, u)};
      }
      return true;
    }
  }
}
