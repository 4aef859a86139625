/** Org-scoped workload ids: how they are built, and what reading one back yields. */
module SpiffePath {
  import opened Common

  predicate ValidSegment(s: string) {
    s != "" && '/' !in s
  }

  const SCHEME := "spiffe://"

  /** spiffe://td/org/{org}/agent/{type}/{id}, refused when a part could smuggle structure. */
  function BuildOrgAgentPath(td: string, org: string, agentType: string, id: string): Option<string> {
    if td != "" && '/' !in td && ValidSegment(org) && ValidSegment(agentType) && ValidSegment(id)
    then Some(SCHEME + td + "/org/" + org + "/agent/" + agentType + "/" + id)
    else None
  }

  function StripSlashes(s: string): string {
    if |s| > 0 && s[|s| - 1] == '/' then StripSlashes(s[..|s| - 1]) else s
  }

  function AfterLastSlash(s: string): string {
    if s == "" then "" else if s[|s| - 1] == '/' then "" else AfterLastSlash(s[..|s| - 1]) + [s[|s| - 1]]
  }

  /** Go's path.Base. */
  function Base(s: string): string {
    if s == "" then "."
    else
      var b := AfterLastSlash(StripSlashes(s));
      if b == "" then "/" else b
  }

  lemma {:induction false} AfterSlash(prefix: string, s: string)
    requires '/' !in s
    ensures AfterLastSlash(prefix + "/" + s) == s
    decreases |s|
  {
    var all := prefix + "/" + s;
    if s != "" {
      var t := s[..|s| - 1];
      assert all[..|all| - 1] == prefix + "/" + t;
      AfterSlash(prefix, t);
      assert s == t + [s[|s| - 1]];
    }
  }

  /** The id the registry keys on is recovered from the built path. */
  lemma BaseOfBuilt(td: string, org: string, agentType: string, id: string)
    requires BuildOrgAgentPath(td, org, agentType, id).Some?
    ensures Base(BuildOrgAgentPath(td, org, agentType, id).value) == id
  {
    var all := BuildOrgAgentPath(td, org, agentType, id).value;
    AfterSlash(SCHEME + td + "/org/" + org + "/agent/" + agentType, id);
    assert all[|all| - 1] == id[|id| - 1];
    assert id[|id| - 1] in id;
  }

  /** Within one trust domain and org, different agents have different paths. */
  lemma BuiltIsInjective(td: string, org: string, type1: string, id1: string, type2: string, id2: string)
    requires BuildOrgAgentPath(td, org, type1, id1).Some?
    requires BuildOrgAgentPath(td, org, type1, id1) == BuildOrgAgentPath(td, org, type2, id2)
    ensures type1 == type2 && id1 == id2
  {
    BaseOfBuilt(td, org, type1, id1);
    BaseOfBuilt(td, org, type2, id2);
    var prefix := SCHEME + td + "/org/" + org + "/agent/";
    assert prefix + type1 + "/" + id1 == prefix + type2 + "/" + id2;
    var l, r := prefix + type1 + "/" + id1, prefix + type2 + "/" + id2;
    assert |type1| == |type2|;
    assert type1 == l[|prefix|..|prefix| + |type1|] == r[|prefix|..|prefix| + |type2|] == type2;
  }

  /** Exactly which parts can be spelled. */
  lemma BuiltIff(td: string, org: string, agentType: string, id: string)
    ensures BuildOrgAgentPath(td, org, agentType, id).Some? <==>
            td != "" && org != "" && agentType != "" && id != "" && '/' !in td + org + agentType + id
  {
  }

  // Go's path.Base, on every string.

  function Slashes(n: nat): string {
    if n == 0 then "" else Slashes(n - 1) + "/"
  }

  lemma {:induction false} StripsAll(s: string, n: nat)
    requires s == "" || s[|s| - 1] != '/'
    ensures StripSlashes(s + Slashes(n)) == s
    decreases n
  {
    if n == 0 {
      assert s + Slashes(0) == s;
    } else {
      var t := s + Slashes(n);
      assert t[..|t| - 1] == s + Slashes(n - 1);
      StripsAll(s, n - 1);
    }
  }

  lemma {:induction false} NoSlashNoCut(s: string)
    requires '/' !in s
    ensures AfterLastSlash(s) == s
    decreases |s|
  {
    if s != "" {
      NoSlashNoCut(s[..|s| - 1]);
      assert s == s[..|s| - 1] + [s[|s| - 1]];
    }
  }

  /** The base is the last element, with trailing slashes ignored. */
  lemma BaseIsLastElement(prefix: string, b: string, n: nat)
    requires b != "" && '/' !in b && (prefix == "" || prefix[|prefix| - 1] == '/')
    ensures Base(prefix + b + Slashes(n)) == b
  {
    var s := prefix + b;
    assert s[|s| - 1] == b[|b| - 1] && b[|b| - 1] in b;
    StripsAll(s, n);
    LastElement(prefix, b);
  }

  lemma LastElement(prefix: string, b: string)
    requires b != "" && '/' !in b && (prefix == "" || prefix[|prefix| - 1] == '/')
    ensures AfterLastSlash(prefix + b) == b
  {
    if prefix == "" {
      assert prefix + b == b;
      NoSlashNoCut(b);
    } else {
      var p := prefix[..|prefix| - 1];
      assert prefix + b == p + "/" + b;
      AfterSlash(p, b);
    }
  }

  /** The two remaining forms of a string: slashes alone, of which one is left, and nothing. */
  lemma BaseOfSlashes(n: nat)
    ensures Base(Slashes(n + 1)) == "/" && Base("") == "."
  {
    StripsAll("", n + 1);
    assert "" + Slashes(n + 1) == Slashes(n + 1);
  }

  // Reading an id back.

  /** strings.Split on the slash. */
  function Split(s: string): (segs: seq<string>)
    ensures |segs| > 0
  {
    if s == "" then [""]
    else
      var rest := Split(s[1..]);
      if s[0] == '/' then [""] + rest else [[s[0]] + rest[0]] + rest[1..]
  }

  /** The part before the first slash. */
  function TrustDomainOf(s: string): (a: string)
    ensures |a| <= |s|
  {
    if s == "" || s[0] == '/' then "" else [s[0]] + TrustDomainOf(s[1..])
  }

  datatype Parsed = Parsed(trustDomain: string, org: string, agent: string, substrateAgent: bool)

  const SUBSTRATE_AGENT := "substrate-agent"

  /** What the path elements claim; a claim of an org must fit one of the two templates. */
  function Claimed(td: string, segs: seq<string>, agent: string): Option<Parsed> {
    if td == "" then None
    else if !(|segs| >= 2 && segs[1] == "org") then Some(Parsed(td, "", agent, false))
    else if |segs| == 4 && segs[2] != "" && segs[3] == SUBSTRATE_AGENT then Some(Parsed(td, segs[2], agent, true))
    else if |segs| >= 5 && segs[2] != "" && segs[3] == "agent" then Some(Parsed(td, segs[2], agent, false))
    else None
  }

  function ParsePath(id: string): Option<Parsed> {
    if !(SCHEME <= id) then None
    else
      var rest := id[|SCHEME|..];
      var td := TrustDomainOf(rest);
      Claimed(td, Split(rest[|td|..]), Base(id))
  }

  lemma {:induction false} TrustDomainFits(td: string, p: string)
    requires '/' !in td && (p == "" || p[0] == '/')
    ensures TrustDomainOf(td + p) == td && (td + p)[|td|..] == p
    decreases |td|
  {
    if td == "" {
      assert td + p == p;
    } else {
      assert (td + p)[1..] == td[1..] + p;
      TrustDomainFits(td[1..], p);
    }
  }

  lemma {:induction false} SplitFirst(a: string, b: string)
    requires '/' !in a
    ensures Split(a + "/" + b) == [a] + Split(b)
    decreases |a|
  {
    var s := a + "/" + b;
    if a == "" {
      assert s[1..] == b;
    } else {
      assert s[1..] == a[1..] + "/" + b;
      SplitFirst(a[1..], b);
      assert [s[0]] + a[1..] == a;
    }
  }

  lemma {:induction false} SplitLast(a: string)
    requires '/' !in a
    ensures Split(a) == [a]
    decreases |a|
  {
    if a != "" {
      SplitLast(a[1..]);
      assert [a[0]] + a[1..] == a;
    }
  }

  function Tail(agentType: string, id: string): string {
    "agent" + "/" + (agentType + "/" + id)
  }

  function Below(org: string, agentType: string, id: string): string {
    "" + "/" + ("org" + "/" + (org + "/" + Tail(agentType, id)))
  }

  lemma SplitTail(agentType: string, id: string)
    requires '/' !in agentType && '/' !in id
    ensures Split(Tail(agentType, id)) == ["agent", agentType, id]
  {
    SplitFirst("agent", agentType + "/" + id);
    SplitFirst(agentType, id);
    SplitLast(id);
  }

  lemma SplitBelow(org: string, agentType: string, id: string)
    requires '/' !in org && '/' !in agentType && '/' !in id
    ensures Split(Below(org, agentType, id)) == ["", "org", org, "agent", agentType, id]
  {
    SplitFirst("", "org" + "/" + (org + "/" + Tail(agentType, id)));
    SplitFirst("org", org + "/" + Tail(agentType, id));
    SplitFirst(org, Tail(agentType, id));
    SplitTail(agentType, id);
  }

  lemma BuiltIsBelow(td: string, org: string, agentType: string, id: string)
    requires BuildOrgAgentPath(td, org, agentType, id).Some?
    ensures BuildOrgAgentPath(td, org, agentType, id).value == SCHEME + (td + Below(org, agentType, id))
  {
    var l, r := "/org/" + org + "/agent/" + agentType + "/" + id, Below(org, agentType, id);
    assert l == r;
    assert SCHEME + td + "/org/" + org + "/agent/" + agentType + "/" + id == SCHEME + (td + l);
  }

  lemma Reads(s: string, td: string, p: string, org: string, agentType: string, id: string)
    requires s == SCHEME + (td + p) && td != "" && '/' !in td && p != "" && p[0] == '/' && org != ""
    requires Split(p) == ["", "org", org, "agent", agentType, id] && Base(s) == id
    ensures ParsePath(s) == Some(Parsed(td, org, id, false))
  {
    ParseOf(td, p);
  }

  /** Round trip: a built id reads back as its own trust domain, org and agent, and never as a
      substrate agent. */
  lemma BuiltReadsBack(td: string, org: string, agentType: string, id: string)
    requires BuildOrgAgentPath(td, org, agentType, id).Some?
    ensures ParsePath(BuildOrgAgentPath(td, org, agentType, id).value) == Some(Parsed(td, org, id, false))
  {
    var s, p := BuildOrgAgentPath(td, org, agentType, id).value, Below(org, agentType, id);
    assert s == SCHEME + (td + p) by { BuiltIsBelow(td, org, agentType, id); }
    assert Base(s) == id by { BaseOfBuilt(td, org, agentType, id); }
    SplitBelow(org, agentType, id);
    Reads(s, td, p, org, agentType, id);
  }

  lemma ParseOf(td: string, p: string)
    requires '/' !in td && (p == "" || p[0] == '/')
    ensures ParsePath(SCHEME + (td + p)) == Claimed(td, Split(p), Base(SCHEME + (td + p)))
  {
    TrustDomainFits(td, p);
    assert (SCHEME + (td + p))[|SCHEME|..] == td + p;
  }

  // The substrate agent's own id.

  function BuildSubstrateAgentPath(td: string, org: string): Option<string> {
    if td != "" && '/' !in td && ValidSegment(org) then Some(SCHEME + td + "/org/" + org + "/" + SUBSTRATE_AGENT) else None
  }

  function Leaf(org: string, leaf: string): string {
    "" + "/" + ("org" + "/" + (org + "/" + leaf))
  }

  lemma SplitLeaf(org: string, leaf: string)
    requires '/' !in org && '/' !in leaf
    ensures Split(Leaf(org, leaf)) == ["", "org", org, leaf]
  {
    SplitFirst("", "org" + "/" + (org + "/" + leaf));
    SplitFirst("org", org + "/" + leaf);
    SplitFirst(org, leaf);
    SplitLast(leaf);
  }

  lemma LeafReads(s: string, td: string, org: string, leaf: string)
    requires s == SCHEME + td + "/org/" + org + "/" + leaf && leaf == SUBSTRATE_AGENT && '/' !in leaf
    requires td != "" && '/' !in td && org != "" && '/' !in org
    ensures ParsePath(s) == Some(Parsed(td, org, Base(s), true))
  {
    var l := "/org/" + org + "/" + leaf;
    assert l == Leaf(org, leaf);
    assert s == SCHEME + (td + l);
    ParseOf(td, Leaf(org, leaf));
    SplitLeaf(org, leaf);
  }

  lemma LeafBase(prefix: string, leaf: string)
    requires leaf != "" && '/' !in leaf
    ensures Base(prefix + "/" + leaf) == leaf
  {
    var s := prefix + "/" + leaf;
    assert s[|s| - 1] == leaf[|leaf| - 1] && leaf[|leaf| - 1] in leaf;
    AfterSlash(prefix, leaf);
  }

  /** Round trip for the other template: it reads back as the org's substrate agent, which no workload's
      id does. */
  lemma SubstrateAgentReadsBack(td: string, org: string)
    requires BuildSubstrateAgentPath(td, org).Some?
    ensures ParsePath(BuildSubstrateAgentPath(td, org).value) == Some(Parsed(td, org, SUBSTRATE_AGENT, true))
    ensures forall td2, org2, agentType, id :: BuildOrgAgentPath(td2, org2, agentType, id) != BuildSubstrateAgentPath(td, org)
  {
    var s := BuildSubstrateAgentPath(td, org).value;
    LeafReads(s, td, org, SUBSTRATE_AGENT);
    LeafBase(SCHEME + td + "/org/" + org, SUBSTRATE_AGENT);
    forall td2, org2, agentType, id ensures BuildOrgAgentPath(td2, org2, agentType, id) != BuildSubstrateAgentPath(td, org) {
      if BuildOrgAgentPath(td2, org2, agentType, id).Some? { BuiltReadsBack(td2, org2, agentType, id); }
    }
  }

  /** The path elements claim an org, and then whether they fit one of the two templates. */
  predicate Claims(segs: seq<string>) {
    |segs| >= 2 && segs[1] == "org"
  }

  predicate Fits(segs: seq<string>) {
    && |segs| >= 4 && segs[2] != ""
    && ((|segs| == 4 && segs[3] == "substrate-agent") || (|segs| >= 5 && segs[3] == "agent"))
  }

  /** Every string read: it is refused iff the scheme is missing, the trust domain is empty, or it
      claims an org without fitting a template. One that claims none reads as org-less. */
  lemma ReadIff(td: string, p: string)
    requires '/' !in td && (p == "" || p[0] == '/')
    ensures var r := ParsePath("spiffe://" + (td + p));
            && (r.None? <==> td == "" || (Claims(Split(p)) && !Fits(Split(p))))
            && (r.Some? ==> r.value.trustDomain == td && (r.value.org != "" <==> Claims(Split(p))))
            && (r.Some? && r.value.substrateAgent ==> Claims(Split(p)) && |Split(p)| == 4)
    ensures forall id :: !("spiffe://" <= id) ==> ParsePath(id).None?
  {
    ParseOf(td, p);
  }

  /** So a built id determines all of its parts. */
  lemma BuiltDeterminesAll(td1: string, org1: string, type1: string, id1: string, td2: string, org2: string, type2: string, id2: string)
    requires BuildOrgAgentPath(td1, org1, type1, id1).Some?
    requires BuildOrgAgentPath(td1, org1, type1, id1) == BuildOrgAgentPath(td2, org2, type2, id2)
    ensures td1 == td2 && org1 == org2 && type1 == type2 && id1 == id2
  {
    BuiltReadsBack(td1, org1, type1, id1);
    BuiltReadsBack(td2, org2, type2, id2);
    BuiltIsInjective(td1, org1, type1, id1, type2, id2);
  }

  lemma ClaimIsExact(td: string, segs: seq<string>, agent: string)
    requires Claimed(td, segs, agent).Some? && Claimed(td, segs, agent).value.org != ""
    ensures var c := Claimed(td, segs, agent).value;
            && td != "" && c.trustDomain == td && c.agent == agent && |segs| >= 4 && segs[1] == "org" && segs[2] == c.org
            && (if c.substrateAgent then |segs| == 4 && segs[3] == SUBSTRATE_AGENT else segs[3] == "agent" && |segs| >= 5)
  {
  }

  /** No org claim can be smuggled in: an id that reads back with an org has it as the second path
      element under "org", followed by "agent" and more, or by the substrate agent's leaf alone. */
  lemma OrgClaimIsExact(id: string)
    requires ParsePath(id).Some? && ParsePath(id).value.org != ""
    ensures SCHEME <= id
    ensures var c, rest := ParsePath(id).value, id[|SCHEME|..];
            && c.trustDomain <= rest && c.trustDomain != "" && '/' !in c.trustDomain && c.agent == Base(id)
            && var segs := Split(rest[|c.trustDomain|..]);
               && |segs| >= 4 && segs[0] == "" && segs[1] == "org" && segs[2] == c.org
               && (if c.substrateAgent then |segs| == 4 && segs[3] == SUBSTRATE_AGENT else segs[3] == "agent" && |segs| >= 5)
  {
    var rest := id[|SCHEME|..];
    var td := TrustDomainOf(rest);
    TrustDomainPrefix(rest);
    ClaimIsExact(td, Split(rest[|td|..]), Base(id));
    StartsEmpty(rest[|td|..]);
  }

  lemma StartsEmpty(p: string)
    requires p == "" || p[0] == '/'
    ensures Split(p)[0] == ""
  {
  }

  lemma {:induction false} TrustDomainPrefix(s: string)
    ensures TrustDomainOf(s) <= s && '/' !in TrustDomainOf(s) && (|TrustDomainOf(s)| < |s| ==> s[|TrustDomainOf(s)|] == '/')
    decreases |s|
  {
    if s != "" && s[0] != '/' { TrustDomainPrefix(s[1..]); }
  }
}
