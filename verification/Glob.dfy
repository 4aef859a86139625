/** Role-ARN patterns: `*` is any run of characters, everything else is literal. The verifier does
    not match globs itself; it translates them to an anchored regular expression. */
module Glob {
  import opened Common

  // What a pattern means.

  predicate GlobMatches(p: string, s: string)
    decreases |p| + |s|
  {
    if p == "" then s == ""
    else if p[0] == '*' then GlobMatches(p[1..], s) || (s != "" && GlobMatches(p, s[1..]))
    else s != "" && s[0] == p[0] && GlobMatches(p[1..], s[1..])
  }

  /** As above, but a star never runs over a line break. */
  predicate LineGlobMatches(p: string, s: string)
    decreases |p| + |s|
  {
    if p == "" then s == ""
    else if p[0] == '*' then LineGlobMatches(p[1..], s) || (s != "" && s[0] != '\n' && LineGlobMatches(p, s[1..]))
    else s != "" && s[0] == p[0] && LineGlobMatches(p[1..], s[1..])
  }

  // The translation.

  predicate Special(c: char) {
    c in "\\.+*?()|[]{}^$"
  }

  function Quote(s: string): string {
    if s == "" then "" else (if Special(s[0]) then ['\\', s[0]] else [s[0]]) + Quote(s[1..])
  }

  /** strings.Split on the star. */
  function SplitStars(p: string): (segs: seq<string>)
    ensures |segs| > 0
  {
    if p == "" then [""]
    else
      var rest := SplitStars(p[1..]);
      if p[0] == '*' then [""] + rest else [[p[0]] + rest[0]] + rest[1..]
  }

  /** The quoted segments with a wildcard between each two. */
  function Join(segs: seq<string>): string
    requires |segs| > 0
  {
    if |segs| == 1 then Quote(segs[0]) else Quote(segs[0]) + (".*" + Join(segs[1..]))
  }

  method Translate(pattern: string) returns (re: string)
    ensures re == "^" + Join(SplitStars(pattern)) + "$"
  {
    var segs := SplitStars(pattern);
    re := "^";
    for i := 0 to |segs|
      invariant i == 0 ==> re == "^"
      invariant re + Remaining(segs, i) == "^" + Join(segs)
    {
      RemainingStep(segs, i);
      ghost var before, added := re, (if i > 0 then ".*" else "") + Quote(segs[i]);
      if i > 0 { re := re + ".*"; }
      re := re + Quote(segs[i]);
      assert re == before + added;
      Assoc(before, added, Remaining(segs, i + 1));
    }
    re := re + "$";
  }

  /** What the builder still has to append before segment i. */
  ghost function Remaining(segs: seq<string>, i: nat): string
    requires i <= |segs| && |segs| > 0
  {
    if i == |segs| then "" else (if i > 0 then ".*" else "") + Join(segs[i..])
  }

  lemma RemainingStep(segs: seq<string>, i: nat)
    requires i < |segs|
    ensures Remaining(segs, i) == ((if i > 0 then ".*" else "") + Quote(segs[i])) + Remaining(segs, i + 1)
  {
    assert segs[i..][1..] == segs[i + 1..];
  }

  // What the regular expression means.

  datatype Item = Begin | End | Lit(c: char) | AnyStar

  /** The characters with a meaning of their own in a regular expression. */
  predicate Meta(c: char) {
    c == '\\' || c == '.' || c == '+' || c == '*' || c == '?' || c == '(' || c == ')' || c == '|' || c == '[' || c == ']'
    || c == '{' || c == '}' || c == '^' || c == '$'
  }

  /** Syntax of the fragment: anchors, escaped characters, plain characters, and `.*`. */
  function Parse(re: string): Option<seq<Item>> {
    if re == "" then Some([])
    else if re[0] == '\\' then
      if |re| >= 2 && Meta(re[1]) then Prepend(Lit(re[1]), Parse(re[2..])) else None
    else if re[0] == '.' then
      if |re| >= 2 && re[1] == '*' then Prepend(AnyStar, Parse(re[2..])) else None
    else if re[0] == '^' then Prepend(Begin, Parse(re[1..]))
    else if re[0] == '$' then Prepend(End, Parse(re[1..]))
    else if Meta(re[0]) then None
    else Prepend(Lit(re[0]), Parse(re[1..]))
  }

  function Prepend(x: Item, xs: Option<seq<Item>>): Option<seq<Item>> {
    if xs.Some? then Some([x] + xs.value) else None
  }

  /** Matching from position i. A dot is any character except a line break. */
  ghost predicate MatchesAt(items: seq<Item>, s: string, i: nat)
    requires i <= |s|
    decreases |items|
  {
    if items == [] then true
    else match items[0]
      case Begin => i == 0 && MatchesAt(items[1..], s, i)
      case End => i == |s| && MatchesAt(items[1..], s, i)
      case Lit(c) => i < |s| && s[i] == c && MatchesAt(items[1..], s, i + 1)
      case AnyStar => exists k :: i <= k <= |s| && '\n' !in s[i..k] && MatchesAt(items[1..], s, k)
  }

  /** A match may start anywhere unless the expression anchors it. */
  ghost predicate Accepts(re: string, s: string) {
    Parse(re).Some? && exists i :: 0 <= i <= |s| && MatchesAt(Parse(re).value, s, i)
  }

  // The translation preserves the meaning.

  function ItemOf(c: char): Item {
    if c == '*' then AnyStar else Lit(c)
  }

  function Items(p: string): seq<Item> {
    if p == "" then [] else [ItemOf(p[0])] + Items(p[1..])
  }

  function Piece(c: char): string {
    if c == '*' then ".*" else if Special(c) then ['\\', c] else [c]
  }

  /** The translation written character by character. */
  function Body(p: string): string {
    if p == "" then "" else Piece(p[0]) + Body(p[1..])
  }

  /** Splitting, quoting and joining is the same as translating each character in turn. */
  lemma {:induction false} JoinIsBody(p: string)
    ensures Join(SplitStars(p)) == Body(p)
    decreases |p|
  {
    if p != "" {
      var rest := SplitStars(p[1..]);
      JoinIsBody(p[1..]);
      if p[0] == '*' {
        assert ([""] + rest)[1..] == rest;
      } else {
        JoinFirstChar(p[0], rest);
      }
    }
  }

  lemma JoinFirstChar(c: char, rest: seq<string>)
    requires |rest| > 0 && c != '*'
    ensures Join([[c] + rest[0]] + rest[1..]) == Piece(c) + Join(rest)
  {
    var first := [c] + rest[0];
    var segs := [first] + rest[1..];
    assert first[1..] == rest[0] && segs[1..] == rest[1..];
    assert Quote(first) == Piece(c) + Quote(rest[0]);
    if |rest| > 1 { Assoc(Piece(c), Quote(rest[0]), ".*" + Join(rest[1..])); }
  }

  lemma ParsePiece(c: char, rest: string)
    ensures Parse(Piece(c) + rest) == Prepend(ItemOf(c), Parse(rest))
  {
    var re := Piece(c) + rest;
    assert re[|Piece(c)|..] == rest;
  }

  lemma ParseAnchors()
    ensures Parse("$") == Some([End])
    ensures forall rest: string :: Parse("^" + rest) == Prepend(Begin, Parse(rest))
  {
    var d := "$";
    assert d[1..] == "" && Parse("") == Some([]) && [End] + [] == [End];
    forall rest: string ensures Parse("^" + rest) == Prepend(Begin, Parse(rest)) {
      var re := "^" + rest;
      assert re[1..] == rest;
    }
  }

  /** Parsing a translated pattern gives back the pattern's own items. */
  lemma {:induction false} ParseBody(p: string, tail: string, items: seq<Item>)
    requires Parse(tail) == Some(items)
    ensures Parse(Body(p) + tail) == Some(Items(p) + items)
    decreases |p|
  {
    if p == "" {
      assert Body(p) + tail == tail && Items(p) + items == items;
    } else {
      var piece, x := Piece(p[0]), ItemOf(p[0]);
      var rest, more := Body(p[1..]), Items(p[1..]);
      ParseBody(p[1..], tail, items);
      ParsePiece(p[0], rest + tail);
      Assoc(piece, rest, tail);
      Assoc([x], more, items);
      assert Body(p) == piece + rest && Items(p) == [x] + more;
    }
  }

  lemma Assoc<T>(a: seq<T>, b: seq<T>, c: seq<T>)
    ensures (a + b) + c == a + (b + c)
  {
  }

  /** The leading star runs over the first k characters and the rest of the pattern takes over. */
  predicate RunsTo(p: string, s: string, k: nat)
    requires p != ""
  {
    k <= |s| && '\n' !in s[..k] && LineGlobMatches(p[1..], s[k..])
  }

  lemma {:induction false} StarMayRun(p: string, s: string, k: nat)
    requires p != "" && p[0] == '*' && RunsTo(p, s, k)
    ensures LineGlobMatches(p, s)
    decreases k
  {
    if k == 0 {
      assert s[0..] == s;
    } else {
      assert s[..k][0] == s[0];
      assert s[1..][..k - 1] == s[..k][1..] && s[1..][k - 1..] == s[k..];
      StarMayRun(p, s[1..], k - 1);
    }
  }

  lemma {:induction false} StarRuns(p: string, s: string) returns (k: nat)
    requires p != "" && p[0] == '*' && LineGlobMatches(p, s)
    ensures RunsTo(p, s, k)
    decreases |s|
  {
    if LineGlobMatches(p[1..], s) {
      assert s[..0] == "" && s[0..] == s;
      k := 0;
    } else {
      k := StarRuns(p, s[1..]);
      assert s[..k + 1] == [s[0]] + s[1..][..k] && s[k + 1..] == s[1..][k..];
      k := k + 1;
    }
  }

  lemma StarItem(items: seq<Item>, s: string, i: nat, k: nat)
    requires items != [] && items[0] == AnyStar && i <= k <= |s| && '\n' !in s[i..k] && MatchesAt(items[1..], s, k)
    ensures MatchesAt(items, s, i)
  {
  }

  lemma {:induction false} ItemsMatchGlob(p: string, s: string, i: nat)
    requires i <= |s|
    ensures MatchesAt(Items(p) + [End], s, i) <==> LineGlobMatches(p, s[i..])
    decreases |p|
  {
    var items := Items(p) + [End];
    if p == "" {
      assert items == [End] && items[1..] == [];
    } else {
      assert items[1..] == Items(p[1..]) + [End];
      if p[0] == '*' {
        if MatchesAt(items, s, i) { ItemStarIsGlobStar(p, s, i, items); }
        if LineGlobMatches(p, s[i..]) { GlobStarIsItemStar(p, s, i, items); }
      } else if i < |s| {
        ItemsMatchGlob(p[1..], s, i + 1);
        assert s[i..][1..] == s[i + 1..];
      }
    }
  }

  lemma {:induction false} ItemStarIsGlobStar(p: string, s: string, i: nat, items: seq<Item>)
    requires i <= |s| && p != "" && p[0] == '*' && items != [] && items[0] == AnyStar && items[1..] == Items(p[1..]) + [End]
    requires MatchesAt(items, s, i)
    ensures LineGlobMatches(p, s[i..])
    decreases |p|, 0
  {
    var t := s[i..];
    var k :| i <= k <= |s| && '\n' !in s[i..k] && MatchesAt(items[1..], s, k);
    ItemsMatchGlob(p[1..], s, k);
    assert t[..k - i] == s[i..k] && t[k - i..] == s[k..];
    StarMayRun(p, t, k - i);
  }

  lemma {:induction false} GlobStarIsItemStar(p: string, s: string, i: nat, items: seq<Item>)
    requires i <= |s| && p != "" && p[0] == '*' && items != [] && items[0] == AnyStar && items[1..] == Items(p[1..]) + [End]
    requires LineGlobMatches(p, s[i..])
    ensures MatchesAt(items, s, i)
    decreases |p|, 0
  {
    var t := s[i..];
    var k := StarRuns(p, t);
    assert t[..k] == s[i..i + k] && t[k..] == s[i + k..];
    ItemsMatchGlob(p[1..], s, i + k);
    StarItem(items, s, i, i + k);
  }

  lemma {:induction false} NoBreakNoDifference(p: string, s: string)
    requires '\n' !in s
    ensures LineGlobMatches(p, s) <==> GlobMatches(p, s)
    decreases |p| + |s|
  {
    if s != "" { assert forall c :: c in s[1..] ==> c in s; assert s[0] in s; }
    if p != "" {
      if p[0] == '*' {
        NoBreakNoDifference(p[1..], s);
        if s != "" { NoBreakNoDifference(p, s[1..]); }
      } else if s != "" {
        NoBreakNoDifference(p[1..], s[1..]);
      }
    }
  }

  /** Empty patterns and empty ARNs match nothing. */
  ghost predicate RoleMatches(pattern: string, arn: string) {
    pattern != "" && arn != "" && Accepts("^" + Join(SplitStars(pattern)) + "$", arn)
  }

  /** The translated expression is well formed, and accepts exactly the strings the glob matches
      with stars kept within a line; on an ARN without a line break, exactly the glob. */
  lemma TranslationPreservesMeaning(pattern: string, arn: string)
    ensures Parse("^" + Join(SplitStars(pattern)) + "$").Some?
    ensures RoleMatches(pattern, arn) <==> pattern != "" && arn != "" && LineGlobMatches(pattern, arn)
    ensures '\n' !in arn ==> (RoleMatches(pattern, arn) <==> pattern != "" && arn != "" && GlobMatches(pattern, arn))
  {
    var re := "^" + Join(SplitStars(pattern)) + "$";
    JoinIsBody(pattern);
    ParseAnchors();
    ParseBody(pattern, "$", [End]);
    var items := [Begin] + (Items(pattern) + [End]);
    assert re == "^" + (Body(pattern) + "$");
    assert Parse(re) == Some(items);
    assert items[1..] == Items(pattern) + [End];
    ItemsMatchGlob(pattern, arn, 0);
    assert arn[0..] == arn;
    assert Accepts(re, arn) <==> MatchesAt(items, arn, 0);
    if '\n' !in arn { NoBreakNoDifference(pattern, arn); }
  }

  // When the line break matters.

  function Count(s: string, c: char): nat {
    if s == "" then 0 else (if s[0] == c then 1 else 0) + Count(s[1..], c)
  }

  /** The pattern with each star replaced by a line break. */
  function Broken(p: string): string {
    if p == "" then "" else [if p[0] == '*' then '\n' else p[0]] + Broken(p[1..])
  }

  lemma {:induction false} BrokenStillGlobs(p: string)
    ensures GlobMatches(p, Broken(p)) && Count(Broken(p), '\n') == Count(p, '\n') + Count(p, '*')
    decreases |p|
  {
    if p != "" {
      BrokenStillGlobs(p[1..]);
      var s := Broken(p);
      assert s[1..] == Broken(p[1..]);
      if p[0] == '*' { assert GlobMatches(p, s[1..]); }
    }
  }

  /** Within a line, a match has exactly the line breaks the pattern spells. */
  lemma {:induction false} LineGlobCountsBreaks(p: string, s: string)
    requires LineGlobMatches(p, s)
    ensures Count(s, '\n') == Count(p, '\n')
    decreases |p| + |s|
  {
    if p != "" {
      if p[0] == '*' {
        if LineGlobMatches(p[1..], s) { LineGlobCountsBreaks(p[1..], s); } else { LineGlobCountsBreaks(p, s[1..]); }
      } else {
        LineGlobCountsBreaks(p[1..], s[1..]);
      }
    }
  }

  lemma {:induction false} NoStarNoDifference(p: string, s: string)
    requires Count(p, '*') == 0
    ensures LineGlobMatches(p, s) <==> GlobMatches(p, s)
    decreases |p|
  {
    if p != "" && s != "" { NoStarNoDifference(p[1..], s[1..]); }
  }

  /** Matching means what the glob says on every ARN, line breaks included, iff the pattern has no
      star. */
  lemma AgreesEverywhereIffStarless(pattern: string)
    requires pattern != ""
    ensures (forall arn: string :: arn != "" ==> (RoleMatches(pattern, arn) <==> GlobMatches(pattern, arn))) <==> Count(pattern, '*') == 0
  {
    forall arn: string ensures RoleMatches(pattern, arn) <==> arn != "" && LineGlobMatches(pattern, arn) {
      TranslationPreservesMeaning(pattern, arn);
    }
    if Count(pattern, '*') == 0 {
      forall arn: string ensures LineGlobMatches(pattern, arn) <==> GlobMatches(pattern, arn) { NoStarNoDifference(pattern, arn); }
    } else {
      var arn := Broken(pattern);
      BrokenStillGlobs(pattern);
      if LineGlobMatches(pattern, arn) { LineGlobCountsBreaks(pattern, arn); }
      assert arn != "" && GlobMatches(pattern, arn) && !RoleMatches(pattern, arn);
    }
  }
}
