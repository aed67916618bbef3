/** Subscription bodies, and why the sets built from the sources are canonical. */
module SourceLists {
  import opened Ordering
  import opened Text
  import opened RuleModel
  import opened Validation
  import opened Store

  // ---- parsing a body -----------------------------------------------------------------------

  const MAX_BODY := 20971520

  function TrimCr(s: string): string {
    if s != "" && s[|s| - 1] == '\r' then s[..|s| - 1] else s
  }

  function LineText(raw: string): string { TrimSpace(TrimCr(raw)) }

  /** Blank lines and comments carry no domain. */
  predicate Carries(raw: string) { LineText(raw) != "" && !HasPrefix(LineText(raw), "#") }

  /** A carriage return at the end is white space like any other: a line carries a domain exactly when its trimmed text
      is not empty and does not begin with a number sign. */
  lemma CarriesExactly(raw: string)
    ensures LineText(raw) == TrimSpace(raw)
    ensures Carries(raw) <==> TrimSpace(raw) != "" && TrimSpace(raw)[0] != '#'
  {
    TrimCrIsTrimmed(raw);
    var text := TrimSpace(raw);
    if text != "" { assert HasPrefix(text, "#") <==> text[0] == '#'; }
  }

  lemma {:induction false} TrimCrIsTrimmed(s: string)
    ensures TrimSpace(TrimCr(s)) == TrimSpace(s)
  {
    if s != "" && s[|s| - 1] == '\r' {
      LeftWithoutLast(s);
      hide IsSpace;
    }
  }

  /** White space at the end does not matter to a trimmed text. */
  lemma {:induction false} LeftWithoutLast(s: string)
    requires s != "" && s[|s| - 1] == '\r'
    ensures TrimRight(TrimLeft(s)) == TrimRight(TrimLeft(s[..|s| - 1]))
    decreases |s|
  {
    var front := s[..|s| - 1];
    if front == "" {
      assert s == ['\r'] && s[1..] == "";
    } else if IsSpace(s[0]) {
      assert s[1..][..|s| - 2] == front[1..];
      LeftWithoutLast(s[1..]);
    } else {
      assert TrimLeft(s) == s && TrimLeft(front) == front;
    }
  }

  function LineDomain(libs: Libs, raw: string): Result<string> { Normalize(libs, LineText(raw), "domain") }

  /** What the lines promise: every carrying line is a domain, and there is one. */
  predicate Parses(libs: Libs, lines: seq<string>) {
    && (forall i | 0 <= i < |lines| && Carries(lines[i]) :: LineDomain(libs, lines[i]).Ok?)
    && (exists i :: 0 <= i < |lines| && Carries(lines[i]))
  }

  /** The domains of the first n lines, each once. */
  ghost predicate Collects(libs: Libs, lines: seq<string>, n: nat, domains: seq<string>)
    requires n <= |lines|
  {
    && NoDuplicates(domains)
    && (forall i | 0 <= i < n && Carries(lines[i]) ::
          LineDomain(libs, lines[i]).Ok? && LineDomain(libs, lines[i]).value in domains)
    && (forall d | d in domains :: exists i :: 0 <= i < n && Carries(lines[i]) && LineDomain(libs, lines[i]) == Ok(d))
  }

  /** A body is accepted exactly when its size is in range and every line that is not blank or a comment is a
      domain name, with at least one; the result holds each normalised name once. */
  method ParseSubscription(libs: Libs, body: string) returns (r: Result<seq<string>>)
    ensures r.Ok? <==> 1 <= ByteLen(body) <= MAX_BODY && Parses(libs, Split(body, '\n'))
    ensures r.Ok? ==> r.value != [] && Collects(libs, Split(body, '\n'), |Split(body, '\n')|, r.value)
  {
    hide ByteLen;
    hide Carries;
    hide LineDomain;
    if ByteLen(body) == 0 || ByteLen(body) > MAX_BODY {
      return Err("subscription file must contain 1..20971520 bytes");
    }
    var lines := Split(body, '\n');
    var seen: set<string> := {};
    var patterns: seq<string> := [];
    for i := 0 to |lines|
      invariant Collects(libs, lines, i, patterns)
      invariant forall d :: d in seen <==> d in patterns
    {
      if !Carries(lines[i]) { continue; }
      var pattern := LineDomain(libs, lines[i]);
      if pattern.Err? {
        return Err(pattern.code);
      }
      if pattern.value !in seen {
        CollectsOneMore(libs, lines, i, patterns, pattern.value);
        seen := seen + {pattern.value};
        patterns := patterns + [pattern.value];
      }
    }
    if |patterns| == 0 {
      return Err("subscription file contains no domains");
    }
    assert patterns[0] in patterns;
    r := Ok(patterns);
  }

  lemma CollectsOneMore(libs: Libs, lines: seq<string>, i: nat, domains: seq<string>, d: string)
    requires i < |lines| && Collects(libs, lines, i, domains) && d !in domains
    requires Carries(lines[i]) && LineDomain(libs, lines[i]) == Ok(d)
    ensures Collects(libs, lines, i + 1, domains + [d])
  {
    hide Carries;
    hide LineDomain;
    var more := domains + [d];
    forall x | x in more
      ensures exists k :: 0 <= k < i + 1 && Carries(lines[k]) && LineDomain(libs, lines[k]) == Ok(x)
    {
      if x in domains {
        var k :| 0 <= k < i && Carries(lines[k]) && LineDomain(libs, lines[k]) == Ok(x);
      }
    }
  }

  /** The parsed domains are normal forms: parsing them again changes nothing. */
  lemma ParsedDomainsAreNormal(libs: Libs, lines: seq<string>, domains: seq<string>)
    requires SoundLibs(libs) && Collects(libs, lines, |lines|, domains)
    ensures forall d | d in domains :: Normalize(libs, d, "domain") == Ok(d)
  {
    hide Normalize;
    hide LineText;
    forall d | d in domains ensures Normalize(libs, d, "domain") == Ok(d) {
      var i :| 0 <= i < |lines| && Carries(lines[i]) && LineDomain(libs, lines[i]) == Ok(d);
      NormalizeIsIdempotent(libs, LineText(lines[i]), "domain");
    }
  }

  // ---- the sets are canonical -----------------------------------------------------------------

  ghost predicate DistinctDomains(s: Sources) {
    SourcesKeyed(s) && forall id | id in s.rows :: NoDuplicates(s.rows[id].domains)
  }

  /** The joined rows of the sources that are enabled and not empty. */
  ghost function Contributions(s: Sources): set<Joined> {
    set id | id in s.rows && Contributes(Join(s, id)) :: Join(s, id)
  }

  /** The sets depend on the enabled non-empty sources alone. */
  lemma SetsAreCanonical(a: Sources, b: Sources)
    requires DistinctDomains(a) && DistinctDomains(b) && Contributions(a) == Contributions(b)
    requires SubscriptionSets(a).Ok? && SubscriptionSets(b).Ok?
    ensures SubscriptionSets(a) == SubscriptionSets(b)
  {
    KeptAreContributions(a);
    KeptAreContributions(b);
    JoinedAscend(a);
    CollectedAreKept(JoinedRows(a));
    CollectedAreKept(JoinedRows(b));
    hide JoinedRows;
    hide CollectSets;
    hide Kept;
    ContributionsOrder(a);
    SortedFormIsUnique(Kept(JoinedRows(a)), Kept(JoinedRows(b)), JoinedLess);
  }

  lemma KeptAreContributions(s: Sources)
    requires DistinctDomains(s)
    ensures Ascending(JoinedLess, Kept(JoinedRows(s)))
    ensures Elements(Kept(JoinedRows(s))) == Contributions(s)
  {
    JoinedAscend(s);
    KeptMembers(JoinedRows(s));
    KeptAscends(JoinedRows(s));
    hide JoinedRows;
    hide Kept;
    hide Contributes;
    var kept := Kept(JoinedRows(s));
    forall j: Joined ensures j in Elements(kept) <==> j in Contributions(s) {
      assert j in Elements(kept) <==> j in kept;
      if j.source.id in s.rows && j == Join(s, j.source.id) && Contributes(j) {
        assert Join(s, j.source.id) in Contributions(s);
      }
    }
  }

  lemma ContributionsOrder(s: Sources)
    requires DistinctDomains(s)
    ensures StrictOrderOn(JoinedLess, Contributions(s))
  {
    forall x, y | x in Contributions(s) && y in Contributions(s) && x != y
      ensures JoinedLess(x, y) || JoinedLess(y, x)
    {
      assert x.source.id != y.source.id;
    }
  }

  /** The sets come in the order of their sources' priorities, then ids, one for each source. */
  lemma SetsAreOrdered(s: Sources, i: nat, k: nat)
    requires DistinctDomains(s) && SubscriptionSets(s).Ok? && i < k < |SubscriptionSets(s).value|
    ensures var a, b := SubscriptionSets(s).value[i].sourceId, SubscriptionSets(s).value[k].sourceId;
      && a in s.rows && b in s.rows
      && var p, q := if a in s.bindings then s.bindings[a].priority else 100,
                     if b in s.bindings then s.bindings[b].priority else 100;
      p < q || (p == q && a < b)
  {
    JoinedAscend(s);
    CollectedAreKept(JoinedRows(s));
    KeptMembers(JoinedRows(s));
    KeptAscends(JoinedRows(s));
    hide JoinedRows;
    hide CollectSets;
    hide Kept;
    hide Sort;
    var kept := Kept(JoinedRows(s));
    assert kept[i] in kept && kept[k] in kept;
    assert JoinedLess(kept[i], kept[k]);
  }

  /** Every set is its source's: the domains in strictly ascending order, and group and priority of the binding for
      a route source, none and 100 for any other. */
  lemma SetDomainsAscend(s: Sources, i: nat)
    requires DistinctDomains(s) && SubscriptionSets(s).Ok? && i < |SubscriptionSets(s).value|
    ensures var set_ := SubscriptionSets(s).value[i];
      && Ascending(StrLess, set_.domains)
      && set_.sourceId in s.rows && s.rows[set_.sourceId].enabled
      && Elements(set_.domains) == Elements(s.rows[set_.sourceId].domains) != {}
      && set_.category == s.rows[set_.sourceId].category && set_.action == s.rows[set_.sourceId].action
      && (set_.category == "route" ==>
            && set_.sourceId in s.bindings
            && set_.bindingId == s.bindings[set_.sourceId].id && set_.groupId == s.bindings[set_.sourceId].groupId
            && set_.priority == s.bindings[set_.sourceId].priority)
      && (set_.category != "route" ==> set_.bindingId == 0 && set_.groupId == "" && set_.priority == 100)
  {
    CollectFailsOnUnbound(JoinedRows(s));
    JoinedAscend(s);
    CollectedAreKept(JoinedRows(s));
    KeptMembers(JoinedRows(s));
    hide JoinedRows;
    hide CollectSets;
    hide Kept;
    var j := Kept(JoinedRows(s))[i];
    assert j in Kept(JoinedRows(s));
    var domains := s.rows[j.source.id].domains;
    assert domains[0] in Elements(domains);
    StrOrder(Elements(domains));
    SortAscends(domains, StrLess);
    SortKeeps(domains, StrLess);
  }
}
