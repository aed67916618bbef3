/** The string operations the controller takes from the Go library, on sequences of characters. */
module Text {
  import opened Ordering

  // ---- byte order -------------------------------------------------------------------------

  /** Lexicographic order: Go's string `<` and SQLite's BINARY collation. */
  predicate StrLess(a: string, b: string) {
    if b == "" then false
    else if a == "" then true
    else if a[0] != b[0] then a[0] < b[0]
    else StrLess(a[1..], b[1..])
  }

  lemma {:induction false} StrIrreflexive(a: string)
    ensures !StrLess(a, a)
  {
    if a != "" { StrIrreflexive(a[1..]); }
  }

  lemma {:induction false} StrTransitive(a: string, b: string, c: string)
    requires StrLess(a, b) && StrLess(b, c)
    ensures StrLess(a, c)
  {
    if a != "" && a[0] == b[0] && b[0] == c[0] {
      StrTransitive(a[1..], b[1..], c[1..]);
    }
  }

  lemma {:induction false} StrTotal(a: string, b: string)
    requires a != b
    ensures StrLess(a, b) || StrLess(b, a)
  {
    if a != "" && b != "" && a[0] == b[0] {
      assert a == [a[0]] + a[1..] && b == [b[0]] + b[1..];
      StrTotal(a[1..], b[1..]);
    }
  }

  lemma StrOrder(s: set<string>)
    ensures StrictOrderOn(StrLess, s)
  {
    forall x | x in s ensures !StrLess(x, x) { StrIrreflexive(x); }
    forall x, y, z | x in s && y in s && z in s && StrLess(x, y) && StrLess(y, z) ensures StrLess(x, z) {
      StrTransitive(x, y, z);
    }
    forall x, y | x in s && y in s && x != y ensures StrLess(x, y) || StrLess(y, x) { StrTotal(x, y); }
  }

  /** The order of dictionaries: a proper prefix comes first, and otherwise the first difference decides. */
  lemma {:induction false} StrLessIsLexicographic(a: string, b: string)
    ensures StrLess(a, b) <==> a < b || exists i :: 0 <= i < |a| && i < |b| && a[..i] == b[..i] && a[i] < b[i]
  {
    if a != "" && b != "" {
      if a[0] == b[0] {
        StrLessIsLexicographic(a[1..], b[1..]);
        DifferenceMoves(a, b);
        assert a < b <==> a[1..] < b[1..] by { assert a == [a[0]] + a[1..] && b == [b[0]] + b[1..]; }
      } else if a[0] < b[0] {
        assert a[..0] == b[..0];
      } else {
        forall i | 0 <= i < |a| && i < |b| ensures !(a[..i] == b[..i] && a[i] < b[i]) {
          if i > 0 { assert a[..i][0] == a[0] && b[..i][0] == b[0]; }
        }
      }
    }
  }

  lemma DifferenceMoves(a: string, b: string)
    requires a != "" && b != "" && a[0] == b[0]
    ensures (exists i :: 0 <= i < |a| && i < |b| && a[..i] == b[..i] && a[i] < b[i]) <==>
      exists i :: 0 <= i < |a[1..]| && i < |b[1..]| && a[1..][..i] == b[1..][..i] && a[1..][i] < b[1..][i]
  {
    if i :| 0 <= i < |a| && i < |b| && a[..i] == b[..i] && a[i] < b[i] {
      assert a[1..][..i - 1] == a[..i][1..] && b[1..][..i - 1] == b[..i][1..];
      assert a[1..][i - 1] < b[1..][i - 1];
    }
    if i :| 0 <= i < |a[1..]| && i < |b[1..]| && a[1..][..i] == b[1..][..i] && a[1..][i] < b[1..][i] {
      assert a[..i + 1] == [a[0]] + a[1..][..i] && b[..i + 1] == [b[0]] + b[1..][..i];
      assert a[i + 1] < b[i + 1];
    }
  }

  // ---- trimming ---------------------------------------------------------------------------

  /** Go's unicode.IsSpace. */
  predicate IsSpace(c: char) {
    || '\t' <= c <= '\r' || c == ' ' || c == '\U{0085}' || c == '\U{00A0}' || c == '\U{1680}'
    || '\U{2000}' <= c <= '\U{200A}' || c == '\U{2028}' || c == '\U{2029}' || c == '\U{202F}'
    || c == '\U{205F}' || c == '\U{3000}'
  }

  /** By code points: the ASCII ones, NEL, the no-break space, and the Unicode space separators. */
  lemma SpacesAre(c: char)
    ensures IsSpace(c) <==>
      var n := c as int;
      n in {9, 10, 11, 12, 13, 32, 133, 160, 5760, 8232, 8233, 8239, 8287, 12288} || 8192 <= n <= 8202
  {}

  function TrimLeft(s: string): string {
    if s != "" && IsSpace(s[0]) then TrimLeft(s[1..]) else s
  }

  function TrimRight(s: string): string {
    if s != "" && IsSpace(s[|s| - 1]) then TrimRight(s[..|s| - 1]) else s
  }

  function TrimSpace(s: string): string { TrimRight(TrimLeft(s)) }

  predicate Trimmed(s: string) {
    s == "" || (!IsSpace(s[0]) && !IsSpace(s[|s| - 1]))
  }

  lemma {:induction false} TrimLeftStops(s: string)
    ensures TrimLeft(s) == "" || !IsSpace(TrimLeft(s)[0])
  {
    if s != "" && IsSpace(s[0]) { TrimLeftStops(s[1..]); }
  }

  lemma {:induction false} TrimRightStops(s: string)
    ensures TrimRight(s) <= s
    ensures TrimRight(s) == "" || !IsSpace(TrimRight(s)[|TrimRight(s)| - 1])
  {
    if s != "" && IsSpace(s[|s| - 1]) { TrimRightStops(s[..|s| - 1]); }
  }

  /** Trimming reaches a fixed point in one go. */
  lemma TrimSpaceIsIdempotent(s: string)
    ensures Trimmed(TrimSpace(s))
    ensures TrimSpace(TrimSpace(s)) == TrimSpace(s)
  {
    TrimLeftStops(s);
    TrimRightStops(TrimLeft(s));
  }

  predicate AllSpace(s: string) { forall i | 0 <= i < |s| :: IsSpace(s[i]) }

  lemma {:induction false} TrimLeftDropsSpace(s: string) returns (left: string)
    ensures s == left + TrimLeft(s) && AllSpace(left)
  {
    hide IsSpace;
    left := "";
    if s != "" && IsSpace(s[0]) {
      var more := TrimLeftDropsSpace(s[1..]);
      left := [s[0]] + more;
      assert s == [s[0]] + s[1..];
    }
  }

  lemma {:induction false} TrimRightDropsSpace(s: string) returns (right: string)
    ensures s == TrimRight(s) + right && AllSpace(right)
  {
    hide IsSpace;
    right := "";
    if s != "" && IsSpace(s[|s| - 1]) {
      var more := TrimRightDropsSpace(s[..|s| - 1]);
      right := more + [s[|s| - 1]];
      assert s == s[..|s| - 1] + [s[|s| - 1]];
    }
  }

  /** Trimming takes white space from both ends, all of it, and nothing else. */
  lemma TrimSpaceIs(s: string)
    ensures Trimmed(TrimSpace(s))
    ensures exists left, right :: s == left + TrimSpace(s) + right && AllSpace(left) && AllSpace(right)
  {
    TrimSpaceIsIdempotent(s);
    var left := TrimLeftDropsSpace(s);
    var right := TrimRightDropsSpace(TrimLeft(s));
    hide IsSpace;
    hide Trimmed;
    hide TrimLeft;
    hide TrimRight;
    assert s == left + TrimSpace(s) + right;
  }

  // ---- letters, labels, prefixes ----------------------------------------------------------

  /** Lower-casing of the ASCII letters; letters beyond ASCII are left to the IDNA mapping. */
  function LowerChar(c: char): char {
    if 'A' <= c <= 'Z' then (c as int + 32) as char else c
  }

  function ToLower(s: string): string {
    seq(|s|, i requires 0 <= i < |s| => LowerChar(s[i]))
  }

  predicate IsLower(s: string) { forall i | 0 <= i < |s| :: !('A' <= s[i] <= 'Z') }

  lemma LowerIsFixed(s: string)
    requires IsLower(s)
    ensures ToLower(s) == s
  {
    forall i | 0 <= i < |s| ensures ToLower(s)[i] == s[i] {}
  }

  function TrimDot(s: string): string {
    if s != "" && s[|s| - 1] == '.' then s[..|s| - 1] else s
  }

  /** Go's strings.Split on a single character. */
  function Split(s: string, separator: char): (r: seq<string>)
    ensures r != []
  {
    if s == "" then [""]
    else if s[0] == separator then [""] + Split(s[1..], separator)
    else [[s[0]] + Split(s[1..], separator)[0]] + Split(s[1..], separator)[1..]
  }

  /** The dot-separated labels of a name, from the left. */
  function Labels(s: string): (r: seq<string>)
    ensures r != []
  {
    Split(s, '.')
  }

  function JoinParts(parts: seq<string>, separator: char): string
    requires parts != []
  {
    if |parts| == 1 then parts[0] else parts[0] + [separator] + JoinParts(parts[1..], separator)
  }

  /** The parts hold no separator, and joined by it they give the text back. */
  lemma {:induction false} SplitIs(s: string, separator: char)
    ensures forall i | 0 <= i < |Split(s, separator)| :: separator !in Split(s, separator)[i]
    ensures JoinParts(Split(s, separator), separator) == s
  {
    if s != "" {
      var rest, all := Split(s[1..], separator), Split(s, separator);
      SplitIs(s[1..], separator);
      assert s == [s[0]] + s[1..];
      if s[0] == separator {
        assert all[1..] == rest;
        assert all[0] + [separator] + JoinParts(rest, separator) == s;
      } else {
        assert all[1..] == rest[1..] && all[0] == [s[0]] + rest[0];
      }
    }
  }

  lemma {:induction false} FinalDotGivesEmptyLabel(s: string)
    requires s != "" && s[|s| - 1] == '.'
    ensures Labels(s)[|Labels(s)| - 1] == ""
    ensures |Labels(s)| >= 2
  {
    if |s| > 1 {
      FinalDotGivesEmptyLabel(s[1..]);
      assert Labels(s[1..]) == Split(s[1..], '.');
    } else {
      assert Split(s[1..], '.') == [""];
    }
  }

  predicate HasPrefix(s: string, prefix: string) { prefix <= s }

  /** Length in bytes of the UTF-8 encoding. */
  function ByteLen(s: string): nat {
    if s == "" then 0
    else (if s[0] < '\U{0080}' then 1 else if s[0] < '\U{0800}' then 2 else if s[0] < '\U{10000}' then 3 else 4)
         + ByteLen(s[1..])
  }

  /** One to four bytes a character, and exactly one for ASCII. */
  lemma {:induction false} ByteLenIs(s: string)
    ensures |s| <= ByteLen(s) <= 4 * |s|
    ensures ByteLen(s) == |s| <==> AllAscii(s)
  {
    if s != "" {
      ByteLenIs(s[1..]);
      assert AllAscii(s) <==> s[0] < '\U{0080}' && AllAscii(s[1..]) by {
        assert s == [s[0]] + s[1..];
        if AllAscii(s) {
          forall i | 0 <= i < |s| - 1 ensures s[1..][i] < '\U{0080}' { assert s[i + 1] < '\U{0080}'; }
        }
      }
    }
  }

  predicate AllAscii(s: string) { forall i | 0 <= i < |s| :: s[i] < '\U{0080}' }

  // ---- LIKE ---------------------------------------------------------------------------------

  /** SQLite's LIKE compares ASCII letters without case. */
  predicate SameLetter(a: char, b: char) { LowerChar(a) == LowerChar(b) }

  /** `text LIKE pattern ESCAPE '\'`, and plain LIKE for a pattern without a backslash. */
  predicate Like(pattern: string, text: string)
    decreases |pattern|, |text|
  {
    if pattern == "" then text == ""
    else if pattern[0] == '\\' then
      |pattern| > 1 && text != "" && SameLetter(pattern[1], text[0]) && Like(pattern[2..], text[1..])
    else if pattern[0] == '%' then Like(pattern[1..], text) || (text != "" && Like(pattern, text[1..]))
    else text != "" && (pattern[0] == '_' || SameLetter(pattern[0], text[0])) && Like(pattern[1..], text[1..])
  }

  lemma {:induction false} PercentMatchesAll(text: string)
    ensures Like("%", text)
    decreases |text|
  {
    if text != "" { PercentMatchesAll(text[1..]); }
  }

  /** A text followed by % matches the texts that begin with it, up to the case of ASCII letters. */
  lemma {:induction false} LikeIsPrefix(prefix: string, text: string)
    requires '%' !in prefix && '_' !in prefix && '\\' !in prefix
    ensures Like(prefix + "%", text) <==> |prefix| <= |text| && ToLower(text[..|prefix|]) == ToLower(prefix)
    decreases |prefix|
  {
    if prefix == "" {
      assert prefix + "%" == "%" && text[..0] == "";
      PercentMatchesAll(text);
    } else {
      var pattern := prefix + "%";
      assert pattern[0] == prefix[0] && prefix[0] in prefix && pattern[1..] == prefix[1..] + "%";
      if text != "" {
        LikeIsPrefix(prefix[1..], text[1..]);
        if |prefix| <= |text| { LowerFirst(text, prefix); }
      }
    }
  }

  lemma LowerFirst(text: string, prefix: string)
    requires prefix != "" && |prefix| <= |text|
    ensures ToLower(text[..|prefix|]) == ToLower(prefix) <==>
      SameLetter(prefix[0], text[0]) && ToLower(text[1..][..|prefix| - 1]) == ToLower(prefix[1..])
  {
    var a, b := ToLower(text[..|prefix|]), ToLower(prefix);
    var a', b' := ToLower(text[1..][..|prefix| - 1]), ToLower(prefix[1..]);
    assert a[0] == LowerChar(text[0]) && b[0] == LowerChar(prefix[0]);
    assert forall i | 1 <= i < |prefix| :: a[i] == a'[i - 1] && b[i] == b'[i - 1];
    if a == b {
      forall i | 0 <= i < |a'| ensures a'[i] == b'[i] { assert a[i + 1] == b[i + 1]; }
    }
    if a[0] == b[0] && a' == b' {
      forall i | 0 <= i < |a| ensures a[i] == b[i] {
        if i > 0 { assert a[i] == a'[i - 1] && b[i] == b'[i - 1]; }
      }
    }
  }
}
