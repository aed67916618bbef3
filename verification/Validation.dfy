/** Normalisation and validation of a rule list, and the constraints of the rule table it must meet. */
module Validation {
  import opened Ordering
  import opened Text
  import opened RuleModel

  datatype Result<+T> = Ok(value: T) | Err(code: string)

  datatype Addr = Addr(is4: bool, text: string)

  /** Library code the controller calls: IDNA ToASCII, the regexp compiler, the address parser. */
  datatype Libs = Libs(toAscii: string -> Option<string>, compiles: string -> bool, parseAddr: string -> Option<Addr>)

  /** A domain name the IDNA lookup profile can return. */
  predicate AsciiName(s: string) {
    AllAscii(s) && IsLower(s) && '*' !in s && forall i | 0 <= i < |s| :: !IsSpace(s[i])
  }

  /** What the library functions promise: their results are canonical and map to themselves. */
  ghost predicate SoundLibs(libs: Libs) {
    && (forall p :: libs.toAscii(p).Some? ==>
          AsciiName(libs.toAscii(p).value) && libs.toAscii(libs.toAscii(p).value) == libs.toAscii(p))
    && (forall p :: libs.parseAddr(p).Some? ==>
          && Trimmed(libs.parseAddr(p).value.text)
          && libs.parseAddr(libs.parseAddr(p).value.text) == libs.parseAddr(p))
  }

  // ---- patterns ---------------------------------------------------------------------------

  predicate LabelsOk(labels: seq<string>) {
    forall i | 0 <= i < |labels| :: 1 <= |labels[i]| <= 63
  }

  function Normalize(libs: Libs, pattern: string, matchType: string): Result<string> {
    var p := TrimSpace(pattern);
    if matchType == "regexp" then
      if p == "" then Err("regexp is empty") else Ok(p)
    else if matchType != "full" && matchType != "domain" then Err("invalid match type")
    else
      var name := TrimDot(ToLower(p));
      if name == "" || '*' in name then Err("invalid domain pattern")
      else match libs.toAscii(name)
        case None => Err("idna")
        case Some(ascii) =>
          if |ascii| > 253 then Err("invalid domain length")
          else if !LabelsOk(Labels(ascii)) then Err("invalid domain label")
          else Ok(ToLower(ascii))
  }

  /** A normalised pattern is its own normal form; a domain has labels of 1..63 bytes, 253 in all. */
  lemma NormalizeIsIdempotent(libs: Libs, pattern: string, matchType: string)
    requires SoundLibs(libs)
    requires Normalize(libs, pattern, matchType).Ok?
    ensures Normalize(libs, Normalize(libs, pattern, matchType).value, matchType)
         == Normalize(libs, pattern, matchType)
    ensures var n := Normalize(libs, pattern, matchType).value;
      n != "" && (matchType != "regexp" ==> AsciiName(n) && |n| <= 253 && LabelsOk(Labels(n)))
  {
    var n := Normalize(libs, pattern, matchType).value;
    TrimSpaceIsIdempotent(pattern);
    if matchType != "regexp" {
      var ascii := libs.toAscii(TrimDot(ToLower(TrimSpace(pattern)))).value;
      LowerIsFixed(ascii);
      assert n == ascii;
      assert n != "" by { assert |Labels(ascii)[0]| >= 1; assert Labels("") == [""]; }
      assert n[|n| - 1] != '.' by {
        if n[|n| - 1] == '.' {
          FinalDotGivesEmptyLabel(n);
        }
      }
      assert TrimSpace(n) == n;
    }
  }

  /** When a pattern has a normal form, and which: a regexp its trimmed text, a name the ASCII form of its trimmed
      lower-case text without a final dot. */
  lemma NormalizeExactly(libs: Libs, pattern: string, matchType: string)
    requires SoundLibs(libs)
    ensures matchType == "regexp" ==>
      Normalize(libs, pattern, matchType) == if TrimSpace(pattern) == "" then Err("regexp is empty")
                                             else Ok(TrimSpace(pattern))
    ensures matchType == "full" || matchType == "domain" ==>
      var name := TrimDot(ToLower(TrimSpace(pattern)));
      && (Normalize(libs, pattern, matchType).Ok? <==>
            && name != "" && '*' !in name && libs.toAscii(name).Some?
            && |libs.toAscii(name).value| <= 253 && LabelsOk(Labels(libs.toAscii(name).value)))
      && (Normalize(libs, pattern, matchType).Ok? ==>
            Normalize(libs, pattern, matchType).value == libs.toAscii(name).value)
    ensures !(matchType in {"regexp", "full", "domain"}) ==> Normalize(libs, pattern, matchType).Err?
  {
    var name := TrimDot(ToLower(TrimSpace(pattern)));
    if libs.toAscii(name).Some? { LowerIsFixed(libs.toAscii(name).value); }
  }

  /** Neither the case of a name nor one final dot makes another rule of it. */
  lemma NamesAreOneRule(libs: Libs, name: string, matchType: string)
    requires matchType != "regexp" && Trimmed(name) && (name == "" || name[|name| - 1] != '.')
    ensures Normalize(libs, ToLower(name), matchType) == Normalize(libs, name, matchType)
    ensures name != "" ==> Normalize(libs, name + ".", matchType) == Normalize(libs, name, matchType)
  {
    LowerStaysTrimmed(name);
    assert TrimSpace(name) == name;
    assert ToLower(ToLower(name)) == ToLower(name);
    if name != "" {
      var dotted := name + ".";
      assert Trimmed(dotted) && TrimSpace(dotted) == dotted;
      assert ToLower(dotted) == ToLower(name) + ".";
    }
  }

  lemma LowerStaysTrimmed(s: string)
    ensures Trimmed(s) ==> TrimSpace(s) == s && TrimSpace(ToLower(s)) == ToLower(s)
    ensures ToLower(ToLower(s)) == ToLower(s)
  {
    forall i | 0 <= i < |s| ensures LowerChar(LowerChar(s[i])) == LowerChar(s[i]) {}
    if Trimmed(s) { assert Trimmed(ToLower(s)); }
  }

  // ---- static answer addresses -------------------------------------------------------------

  function Canonical(libs: Libs, values: seq<string>, want4: bool): Result<seq<string>> {
    if values == [] then Ok([])
    else
      var front := Canonical(libs, values[..|values| - 1], want4);
      if front.Err? then front
      else match libs.parseAddr(TrimSpace(values[|values| - 1]))
        case None => Err("invalid address")
        case Some(addr) =>
          if addr.is4 != want4 then Err("invalid address") else Ok(front.value + [addr.text])
  }

  function Dedup(s: seq<string>): seq<string> {
    if s == [] then []
    else
      var front := Dedup(s[..|s| - 1]);
      if s[|s| - 1] in front then front else front + [s[|s| - 1]]
  }

  function NormalizeIps(libs: Libs, values: seq<string>, want4: bool): Result<seq<string>> {
    if |values| > 16 then Err("address family exceeds 16 entries")
    else
      var c := Canonical(libs, values, want4);
      if c.Err? then c else Ok(Sort(Dedup(c.value), StrLess))
  }

  lemma {:induction false} DedupKeeps(s: seq<string>)
    ensures Elements(Dedup(s)) == Elements(s)
    ensures NoDuplicates(Dedup(s))
    ensures |Dedup(s)| <= |s|
  {
    if s != [] {
      var front := s[..|s| - 1];
      DedupKeeps(front);
      assert s == front + [s[|s| - 1]];
      assert forall x :: x in Dedup(front) <==> x in Elements(Dedup(front));
      assert Elements(s) == Elements(front) + {s[|s| - 1]};
      assert Elements(Dedup(front) + [s[|s| - 1]]) == Elements(Dedup(front)) + {s[|s| - 1]};
    }
  }

  lemma {:induction false} DedupFixes(s: seq<string>)
    requires NoDuplicates(s)
    ensures Dedup(s) == s
  {
    if s != [] {
      var front := s[..|s| - 1];
      DedupFixes(front);
      assert s == front + [s[|s| - 1]];
      assert forall i | 0 <= i < |front| :: s[i] != s[|s| - 1];
    }
  }

  ghost predicate CanonicalText(libs: Libs, want4: bool, text: string) {
    Trimmed(text) && libs.parseAddr(text) == Some(Addr(want4, text))
  }

  lemma {:induction false} CanonicalGivesCanonicalTexts(libs: Libs, values: seq<string>, want4: bool)
    requires SoundLibs(libs) && Canonical(libs, values, want4).Ok?
    ensures |Canonical(libs, values, want4).value| == |values|
    ensures forall x | x in Canonical(libs, values, want4).value :: CanonicalText(libs, want4, x)
  {
    if values != [] {
      CanonicalGivesCanonicalTexts(libs, values[..|values| - 1], want4);
    }
  }

  lemma {:induction false} CanonicalFixes(libs: Libs, values: seq<string>, want4: bool)
    requires forall x | x in values :: CanonicalText(libs, want4, x)
    ensures Canonical(libs, values, want4) == Ok(values)
  {
    if values != [] {
      var last := values[|values| - 1];
      assert last in values;
      CanonicalFixes(libs, values[..|values| - 1], want4);
      assert TrimSpace(last) == last by { assert Trimmed(last); }
      assert values == values[..|values| - 1] + [last];
    }
  }

  /** Accepted addresses come out strictly ascending, and a second pass changes nothing. */
  lemma NormalizeIpsIsIdempotent(libs: Libs, values: seq<string>, want4: bool)
    requires SoundLibs(libs) && NormalizeIps(libs, values, want4).Ok?
    ensures var n := NormalizeIps(libs, values, want4).value;
      && Ascending(StrLess, n) && |n| <= |values|
      && NormalizeIps(libs, n, want4) == Ok(n)
      && Elements(n) == Elements(Canonical(libs, values, want4).value)
  {
    var c := Canonical(libs, values, want4).value;
    CanonicalGivesCanonicalTexts(libs, values, want4);
    DedupKeeps(c);
    var d := Dedup(c);
    SortKeeps(d, StrLess);
    StrOrder(Elements(d));
    SortAscends(d, StrLess);
    var n := Sort(d, StrLess);
    assert Elements(n) == Elements(c);
    forall x | x in n ensures CanonicalText(libs, want4, x) {
      assert x in Elements(n);
    }
    CanonicalFixes(libs, n, want4);
    AscendingHasNoDuplicates(n);
    DedupFixes(n);
    SortAscends(n, StrLess);
    SortKeeps(n, StrLess);
    SortedFormIsUnique(Sort(n, StrLess), n, StrLess);
  }

  lemma {:induction false} CanonicalIs(libs: Libs, values: seq<string>, want4: bool)
    ensures Canonical(libs, values, want4).Ok? <==>
      forall i | 0 <= i < |values| ::
        libs.parseAddr(TrimSpace(values[i])).Some? && libs.parseAddr(TrimSpace(values[i])).value.is4 == want4
    ensures Canonical(libs, values, want4).Ok? ==>
      && |Canonical(libs, values, want4).value| == |values|
      && forall i | 0 <= i < |values| ::
           libs.parseAddr(TrimSpace(values[i])) == Some(Addr(want4, Canonical(libs, values, want4).value[i]))
  {
    hide TrimSpace;
    if values != [] {
      var front, n := values[..|values| - 1], |values| - 1;
      CanonicalIs(libs, front, want4);
      assert forall i | 0 <= i < n :: front[i] == values[i];
      if Canonical(libs, values, want4).Ok? {
        assert libs.parseAddr(TrimSpace(values[n])).Some?;
      }
    }
  }

  /** Addresses are accepted when there are at most sixteen and each is one of the family; what comes out are their
      canonical texts, each once. */
  lemma NormalizeIpsExactly(libs: Libs, values: seq<string>, want4: bool)
    ensures NormalizeIps(libs, values, want4).Ok? <==>
      |values| <= 16 && forall i | 0 <= i < |values| ::
        libs.parseAddr(TrimSpace(values[i])).Some? && libs.parseAddr(TrimSpace(values[i])).value.is4 == want4
    ensures NormalizeIps(libs, values, want4).Ok? ==>
      var n := NormalizeIps(libs, values, want4).value;
      && (forall i | 0 <= i < |values| :: libs.parseAddr(TrimSpace(values[i])).value.text in n)
      && (forall x | x in n ::
            exists i :: 0 <= i < |values| && libs.parseAddr(TrimSpace(values[i])) == Some(Addr(want4, x)))
      && (n == [] <==> values == [])
  {
    hide TrimSpace;
    CanonicalIs(libs, values, want4);
    if NormalizeIps(libs, values, want4).Ok? {
      var c, n := Canonical(libs, values, want4).value, NormalizeIps(libs, values, want4).value;
      DedupKeeps(c);
      SortKeeps(Dedup(c), StrLess);
      forall x ensures x in n <==> x in c {
        assert x in n <==> x in Elements(n);
        assert x in c <==> x in Elements(c);
      }
      forall i | 0 <= i < |values| ensures libs.parseAddr(TrimSpace(values[i])).value.text in n {
        assert c[i] in c;
      }
      if values != [] { assert c[0] in n; }
      if n != [] { assert n[0] in c; }
    }
  }

  lemma AscendingHasNoDuplicates(s: seq<string>)
    requires Ascending(StrLess, s)
    ensures NoDuplicates(s)
  {
    forall i, j | 0 <= i < j < |s| ensures s[i] != s[j] {
      StrIrreflexive(s[i]);
      assert StrLess(s[i], s[j]);
    }
  }

  lemma CanonicalStep(libs: Libs, values: seq<string>, i: nat, want4: bool)
    requires i < |values| && Canonical(libs, values[..i], want4).Ok?
    ensures var front, all := Canonical(libs, values[..i], want4).value, Canonical(libs, values[..i + 1], want4);
      var addr := libs.parseAddr(TrimSpace(values[i]));
      if addr.None? || addr.value.is4 != want4 then all.Err?
      else
        && all == Ok(front + [addr.value.text])
        && Dedup(all.value)
          == if addr.value.text in Dedup(front) then Dedup(front) else Dedup(front) + [addr.value.text]
  {
    hide TrimSpace;
    var upTo := values[..i + 1];
    assert upTo[..i] == values[..i] && upTo[i] == values[i];
    var c := Canonical(libs, upTo, want4);
    if c.Ok? {
      assert c.value[..|c.value| - 1] == Canonical(libs, values[..i], want4).value;
    }
  }

  method NormalizeAddresses(libs: Libs, values: seq<string>, want4: bool) returns (r: Result<seq<string>>)
    ensures r.Ok? <==> NormalizeIps(libs, values, want4).Ok?
    ensures r.Ok? ==> r == NormalizeIps(libs, values, want4)
  {
    if |values| > 16 {
      return Err("address family exceeds 16 entries");
    }
    var seen: set<string> := {};
    var out: seq<string> := [];
    assert Canonical(libs, values[..0], want4) == Ok([]) && Dedup([]) == [];
    hide TrimSpace;
    hide Canonical;
    hide Dedup;
    hide Sort;
    for i := 0 to |values|
      invariant Canonical(libs, values[..i], want4).Ok?
      invariant out == Dedup(Canonical(libs, values[..i], want4).value)
      invariant seen == Elements(out)
    {
      CanonicalStep(libs, values, i, want4);
      var addr := libs.parseAddr(TrimSpace(values[i]));
      if addr.None? || addr.value.is4 != want4 {
        CanonicalPrefix(libs, values, i + 1, want4);
        return Err("invalid address");
      }
      if addr.value.text !in seen {
        seen := seen + {addr.value.text};
        out := out + [addr.value.text];
      }
    }
    assert values[..|values|] == values;
    r := Ok(Sort(out, StrLess));
  }

  lemma {:induction false} CanonicalPrefix(libs: Libs, values: seq<string>, n: nat, want4: bool)
    requires n <= |values| && Canonical(libs, values[..n], want4).Err?
    ensures Canonical(libs, values, want4).Err?
    decreases |values| - n
  {
    if n < |values| {
      assert values[..n + 1][..n] == values[..n];
      CanonicalPrefix(libs, values, n + 1, want4);
    } else {
      assert values[..n] == values;
    }
  }

  // ---- one rule ---------------------------------------------------------------------------

  predicate ValidAction(category: string, action: string) {
    || (category == "access" && (action == "allow" || action == "block"))
    || (category == "route" && action == "upstream")
    || (category == "logging" && action == "no_log")
    || (category == "answer" && action == "static")
  }

  function CheckGroup(r: Rule): Result<Rule> {
    if r.category == "route" then
      if TrimSpace(r.groupId) == "" then Err("route rules require upstream_group_id")
      else Ok(r.(groupId := TrimSpace(r.groupId)))
    else if TrimSpace(r.groupId) != "" then Err("only route rules may include upstream_group_id")
    else Ok(r)
  }

  function CheckAnswer(libs: Libs, r: Rule): Result<Rule> {
    if r.category == "answer" then
      if r.ttl < 1 || r.ttl > 86400 then Err("ttl must be between 1 and 86400")
      else
        var v4 := NormalizeIps(libs, r.ipv4, true);
        var v6 := NormalizeIps(libs, r.ipv6, false);
        if v4.Err? then Err(v4.code)
        else if v6.Err? then Err(v6.code)
        else if |v4.value| + |v6.value| == 0 then Err("static answer requires at least one address")
        else Ok(r.(ipv4 := v4.value, ipv6 := v6.value))
    else if |r.ipv4| != 0 || |r.ipv6| != 0 || r.ttl != 0 then Err("address fields are only valid for answer rules")
    else Ok(r)
  }

  function CheckPattern(libs: Libs, r: Rule): Result<Rule> {
    var n := Normalize(libs, r.pattern, r.matchType);
    if n.Err? then Err(n.code)
    else if r.matchType == "regexp" && ByteLen(n.value) > 512 then Err("regexp exceeds 512 bytes")
    else if r.matchType == "regexp" && !libs.compiles(n.value) then Err("regexp does not compile")
    else Ok(r.(pattern := n.value))
  }

  function NormalizeRule(libs: Libs, r: Rule): Result<Rule> {
    if r.priority < 0 || r.priority > 1000 then Err("priority must be between 0 and 1000")
    else if |r.comment| > 500 then Err("comment exceeds 500 characters")
    else if !ValidAction(r.category, r.action) then Err("invalid category/action")
    else
      var g := CheckGroup(r);
      if g.Err? then g
      else
        var a := CheckAnswer(libs, g.value);
        if a.Err? then a else CheckPattern(libs, a.value)
  }

  lemma CheckGroupExactly(r: Rule)
    ensures CheckGroup(r).Ok? <==> (r.category == "route" <==> TrimSpace(r.groupId) != "")
    ensures CheckGroup(r).Ok? ==>
      CheckGroup(r).value == r.(groupId := if r.category == "route" then TrimSpace(r.groupId) else r.groupId)
  {}

  lemma CheckAnswerExactly(libs: Libs, r: Rule)
    ensures CheckAnswer(libs, r).Ok? <==>
      && (r.category == "answer" ==>
            && 1 <= r.ttl <= 86400 && r.ipv4 + r.ipv6 != []
            && NormalizeIps(libs, r.ipv4, true).Ok? && NormalizeIps(libs, r.ipv6, false).Ok?)
      && (r.category != "answer" ==> r.ttl == 0 && r.ipv4 == [] && r.ipv6 == [])
    ensures CheckAnswer(libs, r).Ok? ==>
      var a := CheckAnswer(libs, r).value;
      && a == r.(ipv4 := a.ipv4, ipv6 := a.ipv6)
      && (r.category == "answer" ==>
            Ok(a.ipv4) == NormalizeIps(libs, r.ipv4, true) && Ok(a.ipv6) == NormalizeIps(libs, r.ipv6, false))
      && (r.category != "answer" ==> a.ipv4 == [] && a.ipv6 == [])
  {
    NormalizeIpsExactly(libs, r.ipv4, true);
    NormalizeIpsExactly(libs, r.ipv6, false);
    hide NormalizeIps;
    hide TrimSpace;
  }

  lemma CheckPatternExactly(libs: Libs, r: Rule)
    ensures CheckPattern(libs, r).Ok? <==>
      && Normalize(libs, r.pattern, r.matchType).Ok?
      && (r.matchType == "regexp" ==> ByteLen(TrimSpace(r.pattern)) <= 512 && libs.compiles(TrimSpace(r.pattern)))
    ensures CheckPattern(libs, r).Ok? ==>
      var p := CheckPattern(libs, r).value;
      p == r.(pattern := p.pattern) && Ok(p.pattern) == Normalize(libs, r.pattern, r.matchType)
  {
    RegexpIsTrimmed(libs, r.pattern);
    hide Normalize;
    hide TrimSpace;
    hide ByteLen;
  }

  lemma RegexpIsTrimmed(libs: Libs, pattern: string)
    ensures Normalize(libs, pattern, "regexp").Ok? ==> Normalize(libs, pattern, "regexp").value == TrimSpace(pattern)
  {}

  /** Exactly the rules that are accepted on their own. */
  lemma NormalizeRuleExactly(libs: Libs, r: Rule)
    ensures NormalizeRule(libs, r).Ok? <==>
      && 0 <= r.priority <= 1000 && |r.comment| <= 500
      && (|| (r.category == "access" && r.action in {"allow", "block"})
          || (r.category == "route" && r.action == "upstream")
          || (r.category == "logging" && r.action == "no_log")
          || (r.category == "answer" && r.action == "static"))
      && (r.category == "route" <==> TrimSpace(r.groupId) != "")
      && (r.category == "answer" ==>
            && 1 <= r.ttl <= 86400 && r.ipv4 + r.ipv6 != []
            && NormalizeIps(libs, r.ipv4, true).Ok? && NormalizeIps(libs, r.ipv6, false).Ok?)
      && (r.category != "answer" ==> r.ttl == 0 && r.ipv4 == [] && r.ipv6 == [])
      && Normalize(libs, r.pattern, r.matchType).Ok?
      && (r.matchType == "regexp" ==> ByteLen(TrimSpace(r.pattern)) <= 512 && libs.compiles(TrimSpace(r.pattern)))
  {
    CheckGroupExactly(r);
    hide CheckGroup;
    hide CheckAnswer;
    hide CheckPattern;
    hide Normalize;
    hide NormalizeIps;
    hide TrimSpace;
    hide ByteLen;
    if CheckGroup(r).Ok? {
      var g := CheckGroup(r).value;
      CheckAnswerExactly(libs, g);
      if CheckAnswer(libs, g).Ok? { CheckPatternExactly(libs, CheckAnswer(libs, g).value); }
    }
  }

  /** The row has the columns the caller gives, in normal form. */
  predicate NormalColumns(libs: Libs, given: Rule, row: Rule) {
    && row.category == given.category && row.action == given.action && row.matchType == given.matchType
    && row.priority == given.priority && row.comment == given.comment && row.enabled == given.enabled
    && row.ttl == given.ttl
    && row.groupId == (if given.category == "route" then TrimSpace(given.groupId) else given.groupId)
    && Ok(row.pattern) == Normalize(libs, given.pattern, given.matchType)
    && (given.category == "answer" ==>
          && Ok(row.ipv4) == NormalizeIps(libs, given.ipv4, true)
          && Ok(row.ipv6) == NormalizeIps(libs, given.ipv6, false))
    && (given.category != "answer" ==> row.ipv4 == [] && row.ipv6 == [])
  }

  /** Normalising writes pattern, group and addresses, and nothing else. */
  lemma NormalizeRuleWrites(libs: Libs, r: Rule)
    requires NormalizeRule(libs, r).Ok?
    ensures var n := NormalizeRule(libs, r).value;
      && NormalColumns(libs, r, n)
      && n.id == r.id && n.source == r.source && n.createdAt == r.createdAt && n.updatedAt == r.updatedAt
      && n.expectedRegistry == r.expectedRegistry
  {
    CheckGroupExactly(r);
    var g := CheckGroup(r).value;
    CheckAnswerExactly(libs, g);
    CheckPatternExactly(libs, CheckAnswer(libs, g).value);
    hide CheckGroup;
    hide CheckAnswer;
    hide CheckPattern;
    hide ValidAction;
    hide Normalize;
    hide NormalizeIps;
    hide TrimSpace;
    hide ByteLen;
  }

  /** An accepted rule is its own normal form, so publishing it again changes nothing. */
  lemma NormalizeRuleIsIdempotent(libs: Libs, r: Rule)
    requires SoundLibs(libs) && NormalizeRule(libs, r).Ok?
    ensures NormalizeRule(libs, NormalizeRule(libs, r).value) == NormalizeRule(libs, r)
  {
    hide Normalize;
    hide NormalizeIps;
    hide TrimSpace;
    hide ByteLen;
    var g := CheckGroup(r).value;
    TrimSpaceIsIdempotent(r.groupId);
    var a := CheckAnswer(libs, g).value;
    if g.category == "answer" {
      NormalizeIpsIsIdempotent(libs, g.ipv4, true);
      NormalizeIpsIsIdempotent(libs, g.ipv6, false);
    }
    NormalizeIsIdempotent(libs, a.pattern, a.matchType);
  }

  // ---- a whole list -----------------------------------------------------------------------

  datatype UniqueKey = UniqueKey(category: string, matchType: string, pattern: string)

  function KeyOf(r: Rule): UniqueKey { UniqueKey(r.category, r.matchType, r.pattern) }

  /** The in-memory duplicate key: the three parts joined by NUL. */
  function KeyText(r: Rule): string { r.category + "\0" + r.matchType + "\0" + r.pattern }

  predicate KnownKinds(r: Rule) {
    r.category in {"access", "route", "logging", "answer"} && r.matchType in {"full", "domain", "regexp"}
  }

  /** Joining with NUL loses nothing, because neither the category nor the match type can hold one. */
  lemma KeyTextIsInjective(a: Rule, b: Rule)
    requires KnownKinds(a) && KnownKinds(b)
    ensures KeyText(a) == KeyText(b) <==> KeyOf(a) == KeyOf(b)
  {
    if KeyText(a) == KeyText(b) {
      NulFree(a);
      NulFree(b);
      SplitAtNul(a.category, a.matchType + "\0" + a.pattern, b.category, b.matchType + "\0" + b.pattern, KeyText(a));
      SplitAtNul(a.matchType, a.pattern, b.matchType, b.pattern, a.matchType + "\0" + a.pattern);
    }
  }

  lemma NulFree(r: Rule)
    requires KnownKinds(r)
    ensures '\0' !in r.category && '\0' !in r.matchType
  {}

  lemma SplitAtNul(a: string, x: string, b: string, y: string, joined: string)
    requires '\0' !in a && '\0' !in b
    requires joined == a + "\0" + x == b + "\0" + y
    ensures a == b && x == y
  {
    var short := if |a| <= |b| then |a| else |b|;
    assert joined[|a|] == '\0' && joined[|b|] == '\0';
    assert forall i | 0 <= i < |b| :: joined[i] == b[i] && b[i] in b;
    assert forall i | 0 <= i < |a| :: joined[i] == a[i] && a[i] in a;
    assert |a| == |b|;
    assert a == joined[..|a|] && b == joined[..|b|];
    assert x == joined[|a| + 1..] && y == joined[|b| + 1..];
  }

  function RegexpCount(rules: seq<Rule>): nat {
    if rules == [] then 0
    else RegexpCount(rules[..|rules| - 1]) + (if Last(rules).matchType == "regexp" then 1 else 0)
  }

  ghost function Regexps(rules: seq<Rule>): set<int> {
    set i | 0 <= i < |rules| && rules[i].matchType == "regexp"
  }

  lemma RegexpsOneMore(front: seq<Rule>, r: Rule)
    ensures Regexps(front + [r]) == Regexps(front) + if r.matchType == "regexp" then {|front|} else {}
  {}

  lemma {:induction false} RegexpCountIs(rules: seq<Rule>)
    ensures RegexpCount(rules) == |Regexps(rules)|
  {
    if rules == [] {
      assert Regexps(rules) == {};
    } else {
      var front := rules[..|rules| - 1];
      RegexpCountIs(front);
      RegexpsOneMore(front, Last(rules));
      assert rules == front + [Last(rules)] && |front| !in Regexps(front);
      hide Regexps;
    }
  }

  ghost predicate EachAccepted(libs: Libs, rules: seq<Rule>) {
    forall i | 0 <= i < |rules| :: NormalizeRule(libs, rules[i]).Ok?
  }

  ghost function NormalizedList(libs: Libs, rules: seq<Rule>): (r: seq<Rule>)
    requires EachAccepted(libs, rules)
    ensures |r| == |rules|
  {
    seq(|rules|, i requires 0 <= i < |rules| => NormalizeRule(libs, rules[i]).value)
  }

  ghost predicate DistinctKeys(rules: seq<Rule>) {
    forall i, j | 0 <= i < j < |rules| :: KeyOf(rules[i]) != KeyOf(rules[j])
  }

  /** Exactly the lists validation lets through. */
  ghost predicate Accepted(libs: Libs, rules: seq<Rule>) {
    && |rules| <= 200000
    && EachAccepted(libs, rules)
    && DistinctKeys(NormalizedList(libs, rules))
    && RegexpCount(rules) <= 500
  }

  lemma AcceptedRuleKinds(libs: Libs, r: Rule)
    requires NormalizeRule(libs, r).Ok?
    ensures KnownKinds(NormalizeRule(libs, r).value)
    ensures NormalizeRule(libs, r).value.id == r.id
    ensures NormalizeRule(libs, r).value.matchType == r.matchType
  {
    hide Normalize;
    hide NormalizeIps;
    hide TrimSpace;
    hide ByteLen;
    NormalizeKnowsMatchTypes(libs, CheckAnswer(libs, CheckGroup(r).value).value);
  }

  lemma NormalizeKnowsMatchTypes(libs: Libs, r: Rule)
    requires Normalize(libs, r.pattern, r.matchType).Ok?
    ensures r.matchType in {"full", "domain", "regexp"}
  {}

  /** The first i rules have been validated and rewritten, the rest not touched. */
  ghost predicate ValidatedTo(libs: Libs, was: seq<Rule>, now: seq<Rule>, i: nat, seen: set<string>) {
    && i <= |was| == |now|
    && (forall k | 0 <= k < i :: NormalizeRule(libs, was[k]) == Ok(now[k]))
    && (forall k | i <= k < |was| :: now[k] == was[k])
    && (forall k | 0 <= k < i :: KeyText(now[k]) in seen)
    && (forall t | t in seen :: exists k :: 0 <= k < i && KeyText(now[k]) == t)
    && (forall j, k | 0 <= j < k < i :: KeyOf(now[j]) != KeyOf(now[k]))
  }

  lemma ValidatedStep(libs: Libs, was: seq<Rule>, now: seq<Rule>, i: nat, seen: set<string>, r: Rule)
    requires ValidatedTo(libs, was, now, i, seen) && i < |was|
    requires NormalizeRule(libs, was[i]) == Ok(r) && KeyText(r) !in seen
    ensures ValidatedTo(libs, was, now[i := r], i + 1, seen + {KeyText(r)})
  {
    hide NormalizeRule;
    hide KeyText;
    hide KeyOf;
    var now' := now[i := r];
    AcceptedRuleKinds(libs, was[i]);
    forall k | 0 <= k < i ensures KeyOf(now'[k]) != KeyOf(r) {
      AcceptedRuleKinds(libs, was[k]);
      KeyTextIsInjective(now[k], r);
    }
    forall t | t in seen + {KeyText(r)} ensures exists k :: 0 <= k < i + 1 && KeyText(now'[k]) == t {
      if t in seen {
        var k :| 0 <= k < i && KeyText(now[k]) == t;
        assert KeyText(now'[k]) == t;
      } else {
        assert KeyText(now'[i]) == t;
      }
    }
  }

  lemma ValidatedToEnd(libs: Libs, was: seq<Rule>, now: seq<Rule>, seen: set<string>)
    requires ValidatedTo(libs, was, now, |was|, seen)
    ensures EachAccepted(libs, was) && now == NormalizedList(libs, was) && DistinctKeys(now)
  {}

  lemma DuplicateFound(libs: Libs, was: seq<Rule>, now: seq<Rule>, i: nat, seen: set<string>, r: Rule)
    requires ValidatedTo(libs, was, now, i, seen) && i < |was|
    requires NormalizeRule(libs, was[i]) == Ok(r) && KeyText(r) in seen
    ensures !Accepted(libs, was)
  {
    var k :| 0 <= k < i && KeyText(now[k]) == KeyText(r);
    AcceptedRuleKinds(libs, was[i]);
    AcceptedRuleKinds(libs, was[k]);
    KeyTextIsInjective(now[k], r);
    DuplicateRejects(libs, was, k, i);
  }

  /** Validation edits the list in place: it accepts exactly the lists of Accepted and leaves their normal form. */
  method ValidateRules(libs: Libs, rules: array<Rule>) returns (err: Option<string>)
    modifies rules
    ensures err.None? <==> Accepted(libs, old(rules[..]))
    ensures err.None? ==> rules[..] == NormalizedList(libs, old(rules[..]))
  {
    hide NormalizeRule;
    hide KeyText;
    hide KeyOf;
    ghost var was := rules[..];
    if rules.Length > 200000 {
      return Some("rule limit exceeded");
    }
    var seen: set<string> := {};
    var regexps := 0;
    for i := 0 to rules.Length
      invariant ValidatedTo(libs, was, rules[..], i, seen)
      invariant regexps == RegexpCount(was[..i])
    {
      ghost var now := rules[..];
      assert rules[i] == now[i] == was[i];
      var checked := CheckOne(libs, rules[i]);
      if checked.Err? {
        return Some(checked.code);
      }
      var r := checked.value;
      rules[i] := r;
      assert rules[..] == now[i := r];
      AcceptedRuleKinds(libs, was[i]);
      assert was[..i + 1][..i] == was[..i] && r.matchType == was[i].matchType;
      if r.matchType == "regexp" {
        regexps := regexps + 1;
      }
      if KeyText(r) in seen {
        DuplicateFound(libs, was, now, i, seen, r);
        return Some("duplicate rule pattern in category");
      }
      ValidatedStep(libs, was, now, i, seen, r);
      seen := seen + {KeyText(r)};
    }
    assert was[..rules.Length] == was;
    ValidatedToEnd(libs, was, rules[..], seen);
    if regexps > 500 {
      return Some("regexp rule limit exceeded");
    }
    err := None;
  }

  lemma DuplicateRejects(libs: Libs, rules: seq<Rule>, k: nat, i: nat)
    requires k < i < |rules|
    requires NormalizeRule(libs, rules[k]).Ok? && NormalizeRule(libs, rules[i]).Ok?
    requires KeyOf(NormalizeRule(libs, rules[k]).value) == KeyOf(NormalizeRule(libs, rules[i]).value)
    ensures !Accepted(libs, rules)
  {
    if EachAccepted(libs, rules) {
      var n := NormalizedList(libs, rules);
      assert n[k] == NormalizeRule(libs, rules[k]).value && n[i] == NormalizeRule(libs, rules[i]).value;
    }
  }

  /** One pass of the validation loop, step by step as the loop body takes them. */
  method CheckOne(libs: Libs, rule: Rule) returns (r: Result<Rule>)
    ensures r.Ok? <==> NormalizeRule(libs, rule).Ok?
    ensures r.Ok? ==> r == NormalizeRule(libs, rule)
  {
    if rule.priority < 0 || rule.priority > 1000 { return Err("priority must be between 0 and 1000"); }
    if |rule.comment| > 500 { return Err("comment exceeds 500 characters"); }
    if !ValidAction(rule.category, rule.action) { return Err("invalid category/action"); }
    var g := CheckGroup(rule);
    if g.Err? { return g; }
    var a := g.value;
    if a.category == "answer" {
      if a.ttl < 1 || a.ttl > 86400 { return Err("ttl must be between 1 and 86400"); }
      var v4 := NormalizeAddresses(libs, a.ipv4, true);
      if v4.Err? { return Err(v4.code); }
      var v6 := NormalizeAddresses(libs, a.ipv6, false);
      if v6.Err? { return Err(v6.code); }
      if |v4.value| + |v6.value| == 0 { return Err("static answer requires at least one address"); }
      a := a.(ipv4 := v4.value, ipv6 := v6.value);
    } else if |a.ipv4| != 0 || |a.ipv6| != 0 || a.ttl != 0 {
      return Err("address fields are only valid for answer rules");
    }
    r := CheckPattern(libs, a);
  }

  /** Validating an accepted list a second time accepts it and leaves it as it is. */
  lemma RevalidationChangesNothing(libs: Libs, rules: seq<Rule>)
    requires SoundLibs(libs) && Accepted(libs, rules)
    ensures var n := NormalizedList(libs, rules);
      Accepted(libs, n) && NormalizedList(libs, n) == n
  {
    var n := NormalizedList(libs, rules);
    forall i | 0 <= i < |n| ensures NormalizeRule(libs, n[i]) == Ok(n[i]) && n[i].matchType == rules[i].matchType {
      NormalizeRuleIsIdempotent(libs, rules[i]);
      AcceptedRuleKinds(libs, rules[i]);
    }
    assert NormalizedList(libs, n) == n;
    SameRegexpCount(rules, n);
  }

  lemma {:induction false} SameRegexpCount(a: seq<Rule>, b: seq<Rule>)
    requires |a| == |b| && forall i | 0 <= i < |a| :: a[i].matchType == b[i].matchType
    ensures RegexpCount(a) == RegexpCount(b)
  {
    if a != [] { SameRegexpCount(a[..|a| - 1], b[..|b| - 1]); }
  }

  // ---- the constraints of the rule table ----------------------------------------------------

  datatype TableRow = TableRow(rule: Rule, normalized: string)

  /** SQLite's trim: spaces only. */
  function SqlTrim(s: string): string {
    if s != "" && s[0] == ' ' then SqlTrim(s[1..])
    else if s != "" && s[|s| - 1] == ' ' then SqlTrim(s[..|s| - 1])
    else s
  }

  function GroupColumn(r: Rule): Option<string> {
    if r.category != "route" then None else Some(r.groupId)
  }

  /** The CHECK constraints on one row. */
  predicate RowCheck(r: Rule) {
    && KnownKinds(r)
    && 0 <= r.priority <= 1000
    && 0 <= r.ttl <= 86400
    && var g := GroupColumn(r);
       || (r.category == "access" && r.action in {"allow", "block"} && g.None? && r.ttl == 0)
       || (r.category == "route" && r.action == "upstream" && g.Some? && |SqlTrim(g.value)| > 0 && r.ttl == 0)
       || (r.category == "logging" && r.action == "no_log" && g.None? && r.ttl == 0)
       || (r.category == "answer" && r.action == "static" && g.None? && 1 <= r.ttl <= 86400)
  }

  predicate UniqueInTable(table: map<int, TableRow>, r: Rule, normalized: string) {
    forall id | id in table ::
      !(table[id].normalized == normalized && table[id].rule.matchType == r.matchType
        && table[id].rule.category == r.category)
  }

  /** One INSERT into the rule table, with its PRIMARY KEY, UNIQUE and CHECK constraints. */
  function InsertRule(libs: Libs, table: map<int, TableRow>, r: Rule): Result<map<int, TableRow>> {
    var n := Normalize(libs, r.pattern, r.matchType);
    if n.Err? then Err(n.code)
    else if r.id in table then Err("PRIMARY KEY")
    else if !UniqueInTable(table, r, n.value) then Err("UNIQUE")
    else if !RowCheck(r) then Err("CHECK")
    else Ok(table[r.id := TableRow(Stored(r), n.value)])
  }

  function InsertAll(libs: Libs, rules: seq<Rule>): Result<map<int, TableRow>> {
    if rules == [] then Ok(map[])
    else
      var front := InsertAll(libs, rules[..|rules| - 1]);
      if front.Err? then front else InsertRule(libs, front.value, Last(rules))
  }

  /** Two rules the UNIQUE constraint cannot hold both: one category, match type and normalised pattern. */
  predicate Clash(libs: Libs, a: Rule, b: Rule) {
    && a.category == b.category && a.matchType == b.matchType
    && Normalize(libs, a.pattern, a.matchType) == Normalize(libs, b.pattern, b.matchType)
  }

  ghost predicate Holds(libs: Libs, table: map<int, TableRow>, r: Rule) {
    && r.id in table && table[r.id].rule == Stored(r)
    && Normalize(libs, r.pattern, r.matchType) == Ok(table[r.id].normalized)
  }

  lemma NewRowClashesNot(libs: Libs, table: map<int, TableRow>, r: Rule, old_: Rule)
    requires InsertRule(libs, table, r).Ok? && Holds(libs, table, old_)
    ensures r.id != old_.id && !Clash(libs, old_, r) && RowCheck(r)
    ensures Holds(libs, InsertRule(libs, table, r).value, old_) && Holds(libs, InsertRule(libs, table, r).value, r)
  {
    hide Normalize;
    hide RowCheck;
    assert !(table[old_.id].normalized == Normalize(libs, r.pattern, r.matchType).value
             && table[old_.id].rule.matchType == r.matchType && table[old_.id].rule.category == r.category);
  }

  lemma FirstRowHolds(libs: Libs, table: map<int, TableRow>, r: Rule)
    requires InsertRule(libs, table, r).Ok?
    ensures RowCheck(r) && Holds(libs, InsertRule(libs, table, r).value, r)
  {
    hide Normalize;
    hide RowCheck;
  }

  /** The constraints let no other list through: what has been inserted whole has distinct ids, meets every CHECK, and
      holds no two rules of one category, match type and normalised pattern. */
  lemma {:induction false} InsertedListMeetsConstraints(libs: Libs, rules: seq<Rule>)
    requires InsertAll(libs, rules).Ok?
    ensures forall i | 0 <= i < |rules| :: RowCheck(rules[i]) && Holds(libs, InsertAll(libs, rules).value, rules[i])
    ensures forall i, j | 0 <= i < j < |rules| :: rules[i].id != rules[j].id && !Clash(libs, rules[i], rules[j])
  {
    hide InsertRule;
    hide RowCheck;
    hide Holds;
    hide Clash;
    if rules != [] {
      var front, last := rules[..|rules| - 1], Last(rules);
      InsertedListMeetsConstraints(libs, front);
      var table := InsertAll(libs, front).value;
      FirstRowHolds(libs, table, last);
      forall i | 0 <= i < |front|
        ensures rules[i].id != last.id && !Clash(libs, rules[i], last) && RowCheck(rules[i])
          && Holds(libs, InsertAll(libs, rules).value, rules[i])
      {
        assert rules[i] == front[i];
        NewRowClashesNot(libs, table, last, front[i]);
      }
      assert forall i | 0 <= i < |front| :: front[i] == rules[i];
    }
  }

  /** What validation leaves behind for one rule: a row that meets every CHECK, already normalised. */
  ghost predicate Storable(libs: Libs, r: Rule) {
    RowCheck(r) && Normalize(libs, r.pattern, r.matchType) == Ok(r.pattern)
  }

  ghost predicate StorableList(libs: Libs, rules: seq<Rule>) {
    && (forall i | 0 <= i < |rules| :: Storable(libs, rules[i]))
    && DistinctIds(rules)
    && DistinctKeys(rules)
  }

  lemma {:induction false} SqlTrimKeepsInk(s: string, i: nat)
    requires i < |s| && s[i] != ' '
    ensures |SqlTrim(s)| > 0
    decreases |s|
  {
    if s[0] == ' ' {
      SqlTrimKeepsInk(s[1..], i - 1);
    } else if s[|s| - 1] == ' ' {
      SqlTrimKeepsInk(s[..|s| - 1], i);
    }
  }

  lemma AcceptedRuleIsStorable(libs: Libs, r: Rule)
    requires SoundLibs(libs) && NormalizeRule(libs, r).Ok?
    ensures Storable(libs, NormalizeRule(libs, r).value)
  {
    hide Normalize;
    hide NormalizeIps;
    hide SqlTrim;
    hide ByteLen;
    var n := NormalizeRule(libs, r).value;
    AcceptedRuleKinds(libs, r);
    if r.category == "route" {
      TrimSpaceIsIdempotent(r.groupId);
      assert n.groupId == TrimSpace(r.groupId) && n.groupId[0] != ' ';
      SqlTrimKeepsInk(n.groupId, 0);
    }
    var a := CheckAnswer(libs, CheckGroup(r).value).value;
    NormalizeIsIdempotent(libs, a.pattern, a.matchType);
  }

  lemma AcceptedListIsStorable(libs: Libs, rules: seq<Rule>)
    requires SoundLibs(libs) && Accepted(libs, rules) && DistinctIds(rules)
    ensures StorableList(libs, NormalizedList(libs, rules))
  {
    var n := NormalizedList(libs, rules);
    forall i | 0 <= i < |n| ensures Storable(libs, n[i]) && n[i].id == rules[i].id {
      AcceptedRuleIsStorable(libs, rules[i]);
      AcceptedRuleKinds(libs, rules[i]);
    }
  }

  /** The table holds exactly the rows of the list, each with its pattern as the normalised column. */
  ghost predicate HoldsList(table: map<int, TableRow>, rules: seq<Rule>) {
    && (forall i | 0 <= i < |rules| ::
          rules[i].id in table && table[rules[i].id] == TableRow(Stored(rules[i]), rules[i].pattern))
    && (forall id | id in table :: exists i :: 0 <= i < |rules| && rules[i].id == id)
  }

  lemma NoConflict(libs: Libs, table: map<int, TableRow>, rules: seq<Rule>, r: Rule)
    requires HoldsList(table, rules) && StorableList(libs, rules + [r])
    ensures r.id !in table && UniqueInTable(table, r, r.pattern)
  {
    hide Storable;
    var all := rules + [r];
    forall id | id in table ensures id != r.id
      && !(table[id].normalized == r.pattern && table[id].rule.matchType == r.matchType
           && table[id].rule.category == r.category)
    {
      var i :| 0 <= i < |rules| && rules[i].id == id;
      assert table[rules[i].id] == TableRow(Stored(rules[i]), rules[i].pattern);
      assert all[i] == rules[i] && all[|rules|] == r;
      assert KeyOf(all[i]) != KeyOf(all[|rules|]) && all[i].id != all[|rules|].id;
    }
  }

  lemma HoldsOneMore(table: map<int, TableRow>, rules: seq<Rule>, r: Rule)
    requires HoldsList(table, rules) && r.id !in table
    ensures HoldsList(table[r.id := TableRow(Stored(r), r.pattern)], rules + [r])
  {
    hide Stored;
    var all := rules + [r];
    var n := |rules|;
    assert all[n] == r && forall i | 0 <= i < n :: all[i] == rules[i];
    var t := table[r.id := TableRow(Stored(r), r.pattern)];
    forall id | id in t ensures exists i :: 0 <= i < n + 1 && all[i].id == id {
      if id == r.id {
        assert all[n].id == id;
      } else {
        var i :| 0 <= i < n && rules[i].id == id;
        assert all[i].id == id;
      }
    }
  }

  lemma HoldsStep(libs: Libs, table: map<int, TableRow>, rules: seq<Rule>, r: Rule)
    requires HoldsList(table, rules) && StorableList(libs, rules + [r])
    ensures InsertRule(libs, table, r) == Ok(table[r.id := TableRow(Stored(r), r.pattern)])
    ensures HoldsList(table[r.id := TableRow(Stored(r), r.pattern)], rules + [r])
  {
    NoConflict(libs, table, rules, r);
    HoldsOneMore(table, rules, r);
    hide Normalize;
    hide RowCheck;
    hide HoldsList;
    hide UniqueInTable;
    assert Storable(libs, (rules + [r])[|rules|]);
  }

  /** Every INSERT of a storable list succeeds, and together they leave exactly the list. */
  lemma {:induction false} StorableListInserts(libs: Libs, rules: seq<Rule>)
    requires StorableList(libs, rules)
    ensures InsertAll(libs, rules).Ok?
    ensures HoldsList(InsertAll(libs, rules).value, rules)
  {
    if rules != [] {
      var front := rules[..|rules| - 1];
      assert rules == front + [Last(rules)];
      assert forall i | 0 <= i < |front| :: front[i] == rules[i];
      StorableListInserts(libs, front);
      HoldsStep(libs, InsertAll(libs, front).value, front, Last(rules));
      hide InsertRule;
    }
  }

  /** Any list validation accepts is stored without violating a constraint: the in-memory duplicate
      check and the table's UNIQUE key coincide, because stored patterns are normal forms. */
  lemma AcceptedListInserts(libs: Libs, rules: seq<Rule>)
    requires SoundLibs(libs) && Accepted(libs, rules) && DistinctIds(rules)
    ensures InsertAll(libs, NormalizedList(libs, rules)).Ok?
    ensures HoldsList(InsertAll(libs, NormalizedList(libs, rules)).value, NormalizedList(libs, rules))
  {
    AcceptedListIsStorable(libs, rules);
    StorableListInserts(libs, NormalizedList(libs, rules));
  }
}
