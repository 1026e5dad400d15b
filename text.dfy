/** The conventional optional value, standing for JavaScript's `null`/`undefined`
    and Python's `None` where the source uses them. */
module Wrappers {
  datatype Option<+T> = None | Some(value: T)
}

/** The string operations the source relies on, each written after the
    library function it calls: JavaScript's `indexOf`, `replace` with a string
    pattern, `split` and `trim`; Python's `str.replace`, `os.path.basename` and
    decimal formatting of an integer. */
module Text {
  import opened Wrappers

  /** The document extension both front ends strip from a file name. */
  const PdfPattern := ".pdf"

  // ---------------------------------------------------------------------------
  // Occurrences of a pattern
  // ---------------------------------------------------------------------------

  /** `pat` occurs in `s` starting at position `i`. */
  predicate OccursAt(s: string, pat: string, i: nat) {
    i + |pat| <= |s| && s[i..i + |pat|] == pat
  }

  /** `pat` occurs nowhere in `s`. */
  ghost predicate Absent(s: string, pat: string) {
    forall j: nat :: !OccursAt(s, pat, j)
  }

  /** `i` is the leftmost position at which `pat` occurs in `s`. */
  ghost predicate FirstOccurrence(s: string, pat: string, i: nat) {
    OccursAt(s, pat, i) && forall j: nat :: j < i ==> !OccursAt(s, pat, j)
  }

  /** The leftmost occurrence of `pat` in `s` at or after `from`, as
      JavaScript's `s.indexOf(pat, from)` finds it (`None` for -1) when
      `from <= |s|`; past the end JavaScript still finds an empty pattern
      at `|s|`, which this function does not. */
  function IndexOfFrom(s: string, pat: string, from: nat): (r: Option<nat>)
    ensures r.Some? ==> from <= r.value && OccursAt(s, pat, r.value)
    ensures r.Some? ==> forall j: nat :: from <= j < r.value ==> !OccursAt(s, pat, j)
    ensures r.None? ==> forall j: nat :: from <= j ==> !OccursAt(s, pat, j)
    decreases |s| - from
  {
    if from + |pat| > |s| then None
    else if s[from..from + |pat|] == pat then Some(from)
    else IndexOfFrom(s, pat, from + 1)
  }

  function IndexOf(s: string, pat: string): (r: Option<nat>)
    ensures r.None? <==> Absent(s, pat)
    ensures r.Some? ==> FirstOccurrence(s, pat, r.value)
  {
    IndexOfFrom(s, pat, 0)
  }

  /** JavaScript's `s.replace(pat, '')` with a string pattern: only the
      leftmost occurrence is removed. */
  function RemoveFirst(s: string, pat: string): (r: string)
    ensures Absent(s, pat) ==> r == s
    ensures forall i: nat :: FirstOccurrence(s, pat, i) ==> r == s[..i] + s[i + |pat|..]
  {
    match IndexOf(s, pat)
    case None => s
    case Some(i) => s[..i] + s[i + |pat|..]
  }

  /** Python's `s.replace(pat, "")`: every occurrence, scanning left to right
      without overlap, is removed. An empty pattern leaves `s` as it is. */
  function RemoveAll(s: string, pat: string): (r: string)
    ensures |r| <= |s|
    ensures forall c :: c in r ==> c in s
    ensures Absent(s, pat) ==> r == s
    decreases |s|
  {
    if pat == [] then s
    else match IndexOf(s, pat)
      case None => s
      case Some(i) => s[..i] + RemoveAll(s[i + |pat|..], pat)
  }

  /** A pattern whose first character occurs nowhere else in it cannot
      straddle the end of a text that does not contain it: appended to such a
      text, its first occurrence is the appended copy. */
  lemma {:induction false} AppendedOccurrenceIsFirst(stem: string, pat: string)
    requires pat != []
    requires forall k :: 0 < k < |pat| ==> pat[k] != pat[0]
    requires Absent(stem, pat)
    ensures FirstOccurrence(stem + pat, pat, |stem|)
  {
    var s := stem + pat;
    assert s[|stem|..|stem| + |pat|] == pat;
    forall j: nat | j < |stem|
      ensures !OccursAt(s, pat, j)
    {
      if j + |pat| <= |stem| {
        assert s[j..j + |pat|] == stem[j..j + |pat|];
        assert !OccursAt(stem, pat, j);
      } else {
        // the appended copy's first character sits at offset |stem| - j,
        // where pat itself holds a different character
        var k := |stem| - j;
        assert 0 < k < |pat|;
        assert j + |pat| <= |s| ==> s[j..j + |pat|][k] == s[|stem|] == pat[0] != pat[k];
      }
    }
  }

  /** Text appended after a first occurrence does not move it. */
  lemma FirstOccurrenceExtends(s: string, t: string, pat: string, i: nat)
    requires FirstOccurrence(s, pat, i)
    ensures FirstOccurrence(s + t, pat, i)
  {
    assert (s + t)[i..i + |pat|] == s[i..i + |pat|];
    forall j: nat | j < i ensures !OccursAt(s + t, pat, j) {
      assert j + |pat| <= |s|;
      assert (s + t)[j..j + |pat|] == s[j..j + |pat|];
      assert !OccursAt(s, pat, j);
    }
  }

  /** Removing the first occurrence and removing all occurrences agree when
      the only occurrence is a suffix appended to a text free of it. */
  lemma {:induction false} RemoveAppendedSuffix(stem: string, pat: string)
    requires pat != []
    requires forall k :: 0 < k < |pat| ==> pat[k] != pat[0]
    requires Absent(stem, pat)
    ensures RemoveFirst(stem + pat, pat) == stem
    ensures RemoveAll(stem + pat, pat) == stem
  {
    var s := stem + pat;
    AppendedOccurrenceIsFirst(stem, pat);
    assert IndexOf(s, pat) == Some(|stem|);
    assert s[..|stem|] == stem;
    assert s[|stem| + |pat|..] == [];
    assert Absent([], pat);
    assert RemoveAll([], pat) == [];
  }

  /** Removing every occurrence drops the first one after an occurrence-free
      stem and goes on with what follows it. */
  lemma {:induction false} RemoveAllAfterFirst(stem: string, pat: string, rest: string)
    requires pat != []
    requires forall k :: 0 < k < |pat| ==> pat[k] != pat[0]
    requires Absent(stem, pat)
    ensures RemoveAll(stem + pat + rest, pat) == stem + RemoveAll(rest, pat)
  {
    var s := stem + pat + rest;
    AppendedOccurrenceIsFirst(stem, pat);
    FirstOccurrenceExtends(stem + pat, rest, pat, |stem|);
    assert IndexOf(s, pat) == Some(|stem|);
    assert s[..|stem|] == stem;
    assert s[|stem| + |pat|..] == rest;
  }

  // ---------------------------------------------------------------------------
  // Splitting on a separator character
  // ---------------------------------------------------------------------------

  /** The inverse of `Split`: the parts glued back with the separator. */
  function Join(parts: seq<string>, sep: char): string
    requires |parts| >= 1
  {
    if |parts| == 1 then parts[0] else parts[0] + [sep] + Join(parts[1..], sep)
  }

  /** JavaScript's `s.split(sep)` for a one-character separator: the maximal
      separator-free runs of `s`, in order, one more than there are separators. */
  function Split(s: string, sep: char): (parts: seq<string>)
    ensures |parts| >= 1
    ensures forall k :: 0 <= k < |parts| ==> sep !in parts[k]
    ensures Join(parts, sep) == s
    decreases |s|
  {
    if s == [] then [[]]
    else
      var rest := Split(s[1..], sep);
      if s[0] == sep then [[]] + rest
      else
        var parts := [[s[0]] + rest[0]] + rest[1..];
        assert parts[1..] == rest[1..];
        assert |rest| > 1 ==> Join(rest, sep) == rest[0] + [sep] + Join(rest[1..], sep);
        assert [s[0]] + s[1..] == s;
        parts
  }

  lemma {:induction false} SplitSeparatorFree(a: string, sep: char)
    requires sep !in a
    ensures Split(a, sep) == [a]
    decreases |a|
  {
    if a != [] {
      SplitSeparatorFree(a[1..], sep);
      assert [a[0]] + a[1..] == a;
    }
  }

  lemma {:induction false} SplitAfterSeparatorFree(a: string, b: string, sep: char)
    requires sep !in a
    ensures Split(a + [sep] + b, sep) == [a] + Split(b, sep)
    decreases |a|
  {
    if a == [] {
      assert a + [sep] + b == [sep] + b;
      assert ([sep] + b)[1..] == b;
    } else {
      assert (a + [sep] + b)[1..] == a[1..] + [sep] + b;
      SplitAfterSeparatorFree(a[1..], b, sep);
      assert [a[0]] + a[1..] == a;
    }
  }

  /** `Split` undoes `Join` on separator-free parts, so the two are inverses. */
  lemma {:induction false} SplitJoin(parts: seq<string>, sep: char)
    requires |parts| >= 1
    requires forall k :: 0 <= k < |parts| ==> sep !in parts[k]
    ensures Split(Join(parts, sep), sep) == parts
    decreases |parts|
  {
    if |parts| == 1 {
      SplitSeparatorFree(parts[0], sep);
    } else {
      SplitJoin(parts[1..], sep);
      SplitAfterSeparatorFree(parts[0], Join(parts[1..], sep), sep);
      assert [parts[0]] + parts[1..] == parts;
    }
  }

  // ---------------------------------------------------------------------------
  // Whitespace trimming (JavaScript's String.prototype.trim)
  // ---------------------------------------------------------------------------

  /** The characters `trim` removes: ECMAScript's WhiteSpace (tab, vertical
      tab, form feed, space, no-break space, byte order mark and the other
      space separators) and LineTerminator (line feed, carriage return, line
      and paragraph separators). */
  predicate IsWhitespace(c: char) {
    c == '\t' || c == '\n' || c == '\U{000B}' || c == '\U{000C}' || c == '\r' ||
    c == ' ' || c == '\U{00A0}' || c == '\U{1680}' ||
    ('\U{2000}' <= c <= '\U{200A}') ||
    c == '\U{2028}' || c == '\U{2029}' || c == '\U{202F}' || c == '\U{205F}' ||
    c == '\U{3000}' || c == '\U{FEFF}'
  }

  predicate AllWhitespace(s: string) {
    forall k :: 0 <= k < |s| ==> IsWhitespace(s[k])
  }

  /** `s` without its leading whitespace. */
  function TrimStart(s: string): (r: string)
    ensures |r| <= |s| && r == s[|s| - |r|..]
    ensures AllWhitespace(s[..|s| - |r|])
    ensures r != [] ==> !IsWhitespace(r[0])
    decreases |s|
  {
    if s != [] && IsWhitespace(s[0]) then
      var r := TrimStart(s[1..]);
      assert s[..|s| - |r|] == [s[0]] + s[1..][..|s| - 1 - |r|];
      r
    else s
  }

  /** `s` without its trailing whitespace. */
  function TrimEnd(s: string): (r: string)
    ensures |r| <= |s| && r == s[..|r|]
    ensures AllWhitespace(s[|r|..])
    ensures r != [] ==> !IsWhitespace(r[|r| - 1])
    decreases |s|
  {
    if s != [] && IsWhitespace(s[|s| - 1]) then
      var r := TrimEnd(s[..|s| - 1]);
      assert s[|r|..] == s[..|s| - 1][|r|..] + [s[|s| - 1]];
      r
    else s
  }

  /** `s.trim()`: the stretch of `s` between its leading and trailing
      whitespace. It is empty exactly when `s` is all whitespace. */
  function Trim(s: string): (r: string)
    ensures |r| <= |s|
    ensures r == [] <==> AllWhitespace(s)
    ensures r != [] ==> !IsWhitespace(r[0]) && !IsWhitespace(r[|r| - 1])
    ensures exists i :: Stretch(s, r, i)
  {
    TrimBlank(s);
    TrimBetween(s);
    TrimEnd(TrimStart(s))
  }

  /** `r` is the part of `s` that starts at `i` and has only whitespace
      before and after it. */
  ghost predicate Stretch(s: string, r: string, i: nat) {
    && i + |r| <= |s|
    && r == s[i..i + |r|]
    && AllWhitespace(s[..i])
    && AllWhitespace(s[i + |r|..])
  }

  /** The trimmed text is the stretch of `s` after its leading whitespace
      and before its trailing whitespace. */
  lemma TrimBetween(s: string)
    ensures Stretch(s, TrimEnd(TrimStart(s)), |s| - |TrimStart(s)|)
  {
    var t := TrimStart(s);
    var r := TrimEnd(t);
    StretchOfParts(s, t, r);
    assert Stretch(s, r, |s| - |t|);
  }

  lemma StretchOfParts(s: string, t: string, r: string)
    requires |t| <= |s| && t == s[|s| - |t|..] && AllWhitespace(s[..|s| - |t|])
    requires |r| <= |t| && r == t[..|r|] && AllWhitespace(t[|r|..])
    ensures Stretch(s, r, |s| - |t|)
  {
    var i := |s| - |t|;
    assert s[i + |r|..] == t[|r|..];
  }

  lemma TrimBlank(s: string)
    ensures TrimEnd(TrimStart(s)) == [] <==> AllWhitespace(s)
  {
    var t := TrimStart(s);
    if TrimEnd(t) == [] {
      TrimEndBlank(t);
      WhitespaceAround(s, t);
    }
  }

  lemma TrimEndBlank(t: string)
    requires TrimEnd(t) == []
    ensures AllWhitespace(t)
  {
    assert t[0..] == t;
  }

  lemma WhitespaceAround(s: string, t: string)
    requires t == TrimStart(s) && AllWhitespace(t)
    ensures AllWhitespace(s)
  {
    // a non-empty `t` would start with a non-whitespace character
    assert t == [];
    assert s == s[..|s|];
  }

  // ---------------------------------------------------------------------------
  // Paths and numbers
  // ---------------------------------------------------------------------------

  /** POSIX `os.path.basename`: the longest suffix of `p` free of '/'. */
  function Basename(p: string): (b: string)
    ensures '/' !in b
    ensures |b| <= |p| && b == p[|p| - |b|..]
    ensures |b| < |p| ==> p[|p| - |b| - 1] == '/'
    decreases |p|
  {
    if p == [] || p[|p| - 1] == '/' then []
    else
      var b := Basename(p[..|p| - 1]) + [p[|p| - 1]];
      assert p[..|p| - 1][|p| - |b|..] + [p[|p| - 1]] == p[|p| - |b|..];
      b
  }

  lemma {:induction false} BasenameOfJoin(dir: string, name: string)
    requires '/' !in name
    ensures Basename(dir + "/" + name) == name
    decreases |name|
  {
    var p := dir + "/" + name;
    if name == [] {
      assert p[|p| - 1] == '/';
    } else {
      var init := name[..|name| - 1];
      var q := dir + "/" + init;
      assert p == q + [name[|name| - 1]];
      assert p[..|p| - 1] == q;
      BasenameOfJoin(dir, init);
      assert init + [name[|name| - 1]] == name;
    }
  }

  /** One decimal digit. */
  function Digit(d: nat): (c: char)
    requires d < 10
    ensures '0' <= c <= '9'
  {
    (48 + d) as char
  }

  predicate IsDecimal(s: string) {
    forall k :: 0 <= k < |s| ==> '0' <= s[k] <= '9'
  }

  /** The shortest decimal numeral of `n`, as Python's f-string `{n}` gives it. */
  function NatToDecimal(n: nat): (r: string)
    ensures |r| >= 1 && IsDecimal(r)
    ensures r[0] == '0' ==> n == 0
    decreases n
  {
    if n < 10 then [Digit(n)]
    else NatToDecimal(n / 10) + [Digit(n % 10)]
  }

  /** The value a decimal numeral denotes. */
  function DecimalValue(s: string): nat
    requires IsDecimal(s)
  {
    if s == [] then 0
    else DecimalValue(s[..|s| - 1]) * 10 + (s[|s| - 1] as int - 48)
  }

  lemma {:induction false} DecimalRoundTrip(n: nat)
    ensures DecimalValue(NatToDecimal(n)) == n
    decreases n
  {
    var r := NatToDecimal(n);
    if n >= 10 {
      DecimalRoundTrip(n / 10);
      assert r[..|r| - 1] == NatToDecimal(n / 10);
    }
  }

  /** Distinct numbers have distinct numerals. */
  lemma NatToDecimalInjective(a: nat, b: nat)
    requires NatToDecimal(a) == NatToDecimal(b)
    ensures a == b
  {
    DecimalRoundTrip(a);
    DecimalRoundTrip(b);
  }
}
