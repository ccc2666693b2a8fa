/**
 * String primitives of JavaScript that the parsers lean on: the `\s` class and
 * `trim`, `split` on one character, `startsWith`/`endsWith`/`includes`,
 * `toLowerCase`/`toUpperCase`, `replace(/\s+/g, ' ')`, `replace` of the first
 * occurrence, and `parseInt` of a run of decimal digits.
 */
module Text {

  import opened Options

  // ---------------------------------------------------------------------------
  // Character classes
  // ---------------------------------------------------------------------------

  /** JavaScript's `\s`: WhiteSpace and LineTerminator; also what `trim` removes. */
  predicate IsSpace(c: char) {
    || c == ' ' || c == '\t' || c == '\n' || c == '\r' || c == '\U{B}' || c == '\U{C}'
    || c == '\U{A0}' || c == '\U{1680}' || ('\U{2000}' <= c <= '\U{200A}')
    || c == '\U{2028}' || c == '\U{2029}' || c == '\U{202F}' || c == '\U{205F}'
    || c == '\U{3000}' || c == '\U{FEFF}'
  }

  /** The characters a regex `.` does not match and a multiline `^`/`$` treats as line ends. */
  predicate IsLineTerminator(c: char) {
    c == '\n' || c == '\r' || c == '\U{2028}' || c == '\U{2029}'
  }

  /** JavaScript's `\d`: ASCII decimal digits only. */
  predicate IsDigit(c: char) {
    '0' <= c <= '9'
  }

  predicate AllSpace(s: string) {
    forall i :: 0 <= i < |s| ==> IsSpace(s[i])
  }

  predicate NoLineTerminator(s: string) {
    forall i :: 0 <= i < |s| ==> !IsLineTerminator(s[i])
  }

  predicate AllDigits(s: string) {
    forall i :: 0 <= i < |s| ==> IsDigit(s[i])
  }

  /** `/^\d+$/.test(s)` */
  predicate IsDigits(s: string) {
    |s| > 0 && AllDigits(s)
  }

  // ---------------------------------------------------------------------------
  // Greedy runs
  // ---------------------------------------------------------------------------

  /** Length of the longest prefix of s made of `\s` characters. */
  function LeadingSpaces(s: string): (n: nat)
    ensures n <= |s| && AllSpace(s[..n])
    ensures n < |s| ==> !IsSpace(s[n])
  {
    if s == [] || !IsSpace(s[0]) then 0
    else
      var n := 1 + LeadingSpaces(s[1..]);
      assert s[..n] == [s[0]] + s[1..][..n - 1];
      n
  }

  /** Length of the longest suffix of s made of `\s` characters. */
  function TrailingSpaces(s: string): (n: nat)
    ensures n <= |s| && AllSpace(s[|s| - n..])
    ensures n < |s| ==> !IsSpace(s[|s| - n - 1])
  {
    if s == [] || !IsSpace(s[|s| - 1]) then 0
    else
      var init := s[..|s| - 1];
      var m := TrailingSpaces(init);
      assert s[|s| - (m + 1)..] == init[|init| - m..] + [s[|s| - 1]];
      AllSpaceSnoc(init[|init| - m..], s[|s| - 1]);
      m + 1
  }

  lemma AllSpaceSnoc(a: string, c: char)
    requires AllSpace(a) && IsSpace(c)
    ensures AllSpace(a + [c])
  {
  }

  /** Length of the longest prefix of s made of `\d` characters. */
  function LeadingDigits(s: string): (n: nat)
    ensures n <= |s| && AllDigits(s[..n])
    ensures n < |s| ==> !IsDigit(s[n])
  {
    if s == [] || !IsDigit(s[0]) then 0
    else
      var n := 1 + LeadingDigits(s[1..]);
      assert s[..n] == [s[0]] + s[1..][..n - 1];
      n
  }

  /** Length of the longest prefix of s that a run of `.` matches. */
  function LeadingNonTerminators(s: string): (n: nat)
    ensures n <= |s| && NoLineTerminator(s[..n])
    ensures n < |s| ==> IsLineTerminator(s[n])
  {
    if s == [] || IsLineTerminator(s[0]) then 0
    else
      var n := 1 + LeadingNonTerminators(s[1..]);
      assert s[..n] == [s[0]] + s[1..][..n - 1];
      n
  }

  // ---------------------------------------------------------------------------
  // trim
  // ---------------------------------------------------------------------------

  /** A string `trim` leaves unchanged. */
  predicate IsTrimmed(s: string) {
    s == [] || (!IsSpace(s[0]) && !IsSpace(s[|s| - 1]))
  }

  /** `s.trim()`: s with its leading and trailing `\s` run removed. */
  function Trim(s: string): (r: string)
    ensures IsTrimmed(r)
    ensures LeadingSpaces(s) + |r| <= |s| && r == s[LeadingSpaces(s)..LeadingSpaces(s) + |r|]
    ensures AllSpace(s[..LeadingSpaces(s)]) && AllSpace(s[LeadingSpaces(s) + |r|..])
  {
    var a := LeadingSpaces(s);
    var r := s[a..];
    var b := TrailingSpaces(r);
    SliceOfSlice(s, a, |s| - b);
    assert s[a + (|s| - a - b)..] == r[|s| - a - b..];
    r[..|r| - b]
  }

  lemma {:induction false} LeadingSpacesAfterSpaces(w: string, x: string)
    requires AllSpace(w)
    ensures LeadingSpaces(w + x) == |w| + LeadingSpaces(x)
    decreases |w|
  {
    if w != [] {
      assert (w + x)[1..] == w[1..] + x;
      LeadingSpacesAfterSpaces(w[1..], x);
    } else {
      assert w + x == x;
    }
  }

  /** Whitespace in front of a string does not change what `trim` returns. */
  lemma {:induction false} TrimAfterSpaces(w: string, x: string)
    requires AllSpace(w)
    ensures Trim(w + x) == Trim(x)
  {
    var n := LeadingSpaces(x);
    LeadingSpacesAfterSpaces(w, x);
    assert (w + x)[|w| + n..] == x[n..];
    TrimOfSuffix(w + x, x);
  }

  /** `trim` only looks at what follows the leading whitespace run. */
  lemma TrimOfSuffix(s: string, x: string)
    requires s[LeadingSpaces(s)..] == x[LeadingSpaces(x)..]
    ensures Trim(s) == Trim(x)
  {
    TrimRest(s);
    TrimRest(x);
  }

  /** `trim` removes the trailing run from what follows the leading one. */
  lemma TrimRest(s: string)
    ensures var r := s[LeadingSpaces(s)..]; Trim(s) == r[..|r| - TrailingSpaces(r)]
  {
  }

  /** `trim` leaves a trimmed string as it is. */
  lemma TrimOfTrimmed(s: string)
    requires IsTrimmed(s)
    ensures Trim(s) == s
  {
    if s != [] {
      assert LeadingSpaces(s) == 0;
      assert TrailingSpaces(s) == 0;
    }
  }

  /** `trim` is idempotent. */
  lemma TrimIdempotent(s: string)
    ensures Trim(Trim(s)) == Trim(s)
  {
    var r := Trim(s);
    if r != [] {
      assert LeadingSpaces(r) == 0;
      assert TrailingSpaces(r) == 0;
    }
  }

  /** Concatenation regrouped, which the loops that extend a prefix rely on. */
  lemma ConcatAssoc<T>(a: seq<T>, b: seq<T>, c: seq<T>)
    ensures a + (b + c) == (a + b) + c
  {
  }

  /** Dropping the last element of a concatenation with a non-empty right part. */
  lemma ConcatInit<T>(a: seq<T>, b: seq<T>)
    requires b != []
    ensures (a + b)[..|a + b| - 1] == a + b[..|b| - 1] && (a + b)[|a + b| - 1] == b[|b| - 1]
  {
  }

  /** Dropping the first element of a concatenation with a non-empty left part. */
  lemma ConcatTail<T>(a: seq<T>, b: seq<T>)
    requires a != []
    ensures (a + b)[1..] == a[1..] + b && (a + b)[0] == a[0]
  {
  }

  lemma ConsTail<T>(s: seq<T>)
    requires s != []
    ensures [s[0]] + s[1..] == s
  {
  }

  /** A prefix of a suffix is a slice. */
  lemma SliceOfSlice<T>(s: seq<T>, a: nat, e: nat)
    requires a <= e <= |s|
    ensures s[a..][..e - a] == s[a..e]
  {
  }

  /** A prefix one longer is the prefix and the next element. */
  lemma PrefixSnoc<T>(s: seq<T>, i: nat)
    requires i < |s|
    ensures s[..i + 1] == s[..i] + [s[i]]
  {
  }

  /** A non-empty right part splits off its last element, also under a left part. */
  lemma SnocSplit<T>(a: seq<T>, b: seq<T>)
    requires b != []
    ensures b == b[..|b| - 1] + [b[|b| - 1]]
    ensures a + b == (a + b[..|b| - 1]) + [b[|b| - 1]]
  {
    assert b == b[..|b| - 1] + [b[|b| - 1]];
  }

  // ---------------------------------------------------------------------------
  // split and join on one character
  // ---------------------------------------------------------------------------

  /** `s.split(sep)` for a one-character separator: the pieces between separators. */
  function Split(s: string, sep: char): (parts: seq<string>)
    ensures |parts| >= 1
    ensures forall i :: 0 <= i < |parts| ==> sep !in parts[i]
  {
    if s == [] then [[]]
    else
      var rest := Split(s[1..], sep);
      if s[0] == sep then [[]] + rest
      else [[s[0]] + rest[0]] + rest[1..]
  }

  /** `parts.join(sep)` */
  function Join(parts: seq<string>, sep: char): string
    requires |parts| >= 1
  {
    if |parts| == 1 then parts[0] else parts[0] + [sep] + Join(parts[1..], sep)
  }

  /** Joining the pieces of a split gives back the text. */
  lemma {:induction false} JoinSplit(s: string, sep: char)
    ensures Join(Split(s, sep), sep) == s
  {
    if s != [] {
      var rest := Split(s[1..], sep);
      JoinSplit(s[1..], sep);
      if s[0] == sep {
        assert Split(s, sep)[1..] == rest;
      } else {
        var parts := Split(s, sep);
        if |rest| == 1 {
          assert parts == [[s[0]] + rest[0]];
        } else {
          assert parts[1..] == rest[1..];
          assert Join(rest, sep) == rest[0] + [sep] + Join(rest[1..], sep);
        }
      }
    }
  }

  lemma {:induction false} SplitWithoutSep(a: string, b: string, sep: char)
    requires sep !in a
    ensures Split(a + b, sep) == [a + Split(b, sep)[0]] + Split(b, sep)[1..]
    decreases |a|
  {
    if a == [] {
      assert a + b == b;
      assert a + Split(b, sep)[0] == Split(b, sep)[0];
      assert Split(b, sep) == [Split(b, sep)[0]] + Split(b, sep)[1..];
    } else {
      ConcatTail(a, b);
      SplitWithoutSep(a[1..], b, sep);
      assert [a[0]] + (a[1..] + Split(b, sep)[0]) == a + Split(b, sep)[0];
    }
  }

  /** Splitting a join of separator-free pieces gives back the pieces. */
  lemma {:induction false} SplitJoin(parts: seq<string>, sep: char)
    requires |parts| >= 1
    requires forall i :: 0 <= i < |parts| ==> sep !in parts[i]
    ensures Split(Join(parts, sep), sep) == parts
  {
    if |parts| == 1 {
      SplitWithoutSep(parts[0], [], sep);
      assert parts[0] + [] == parts[0];
    } else {
      var tail := Join(parts[1..], sep);
      SplitJoin(parts[1..], sep);
      assert Split([sep] + tail, sep) == [[]] + parts[1..];
      assert parts[0] + [sep] + tail == parts[0] + ([sep] + tail);
      SplitWithoutSep(parts[0], [sep] + tail, sep);
      assert parts[0] + [] == parts[0];
    }
  }

  // ---------------------------------------------------------------------------
  // Prefixes, suffixes, substrings
  // ---------------------------------------------------------------------------

  predicate StartsWith(s: string, p: string) {
    |p| <= |s| && s[..|p|] == p
  }

  predicate EndsWith(s: string, p: string) {
    |p| <= |s| && s[|s| - |p|..] == p
  }

  /** sub occurs in s at offset i. */
  predicate OccursAt(s: string, sub: string, i: int) {
    0 <= i <= |s| - |sub| && s[i..i + |sub|] == sub
  }

  /** `s.includes(sub)`, equivalently `s.indexOf(sub) !== -1`. */
  predicate Contains(s: string, sub: string) {
    exists i :: 0 <= i <= |s| && OccursAt(s, sub, i)
  }

  /** `s.indexOf(sub, from)` when it is not -1. */
  function IndexOf(s: string, sub: string, from: nat): (r: Option<nat>)
    requires from <= |s|
    ensures r.Some? ==> from <= r.value && OccursAt(s, sub, r.value)
    ensures r.Some? ==> forall j :: from <= j < r.value ==> !OccursAt(s, sub, j)
    ensures r.None? ==> forall j :: from <= j ==> !OccursAt(s, sub, j)
    decreases |s| - from
  {
    if |s| - from < |sub| then None
    else if s[from..from + |sub|] == sub then Some(from)
    else IndexOf(s, sub, from + 1)
  }

  /** `s.replace(pat, rep)` with a string pattern: only the first occurrence is replaced. */
  function ReplaceFirst(s: string, pat: string, rep: string): (r: string)
    ensures !Contains(s, pat) ==> r == s
    ensures Contains(s, pat) ==>
      exists i :: (OccursAt(s, pat, i) && r == s[..i] + rep + s[i + |pat|..]
                   && forall j :: 0 <= j < i ==> !OccursAt(s, pat, j))
  {
    match IndexOf(s, pat, 0)
    case None => s
    case Some(i) => s[..i] + rep + s[i + |pat|..]
  }

  // ---------------------------------------------------------------------------
  // Case mapping (ASCII and Latin-1, plus the few characters whose mapping leaves that range)
  // ---------------------------------------------------------------------------

  function LowerChar(c: char): string {
    if 'A' <= c <= 'Z' || ('\U{C0}' <= c <= '\U{DE}' && c != '\U{D7}') then [(c as int + 32) as char]
    else if c == '\U{130}' then "i\U{307}"
    else [c]
  }

  function UpperChar(c: char): string {
    if 'a' <= c <= 'z' || ('\U{E0}' <= c <= '\U{FE}' && c != '\U{F7}') then [(c as int - 32) as char]
    else if c == '\U{FF}' then "\U{178}"
    else if c == '\U{B5}' then "\U{39C}"
    else if c == '\U{DF}' then "SS"
    else if c == '\U{131}' then "I"
    else if c == '\U{17F}' then "S"
    else [c]
  }

  /** `s.toLowerCase()` */
  function Lower(s: string): string {
    if s == [] then [] else LowerChar(s[0]) + Lower(s[1..])
  }

  /** `s.toUpperCase()` */
  function Upper(s: string): string {
    if s == [] then [] else UpperChar(s[0]) + Upper(s[1..])
  }

  lemma {:induction false} LowerAppend(a: string, b: string)
    ensures Lower(a + b) == Lower(a) + Lower(b)
    decreases |a|
  {
    if a == [] {
      assert a + b == b;
    } else {
      ConcatTail(a, b);
      LowerAppend(a[1..], b);
    }
  }

  /** Lower-casing twice is lower-casing once. */
  lemma {:induction false} LowerIdempotent(s: string)
    ensures Lower(Lower(s)) == Lower(s)
    decreases |s|
  {
    if s != [] {
      var c := LowerChar(s[0]);
      LowerAppend(c, Lower(s[1..]));
      LowerIdempotent(s[1..]);
      if |c| == 1 {
        assert Lower(c) == LowerChar(c[0]) + Lower([]);
      } else {
        assert c == ['i'] + ['\U{307}'];
        LowerAppend(['i'], ['\U{307}']);
      }
    }
  }

  /** Text whose characters `toLowerCase` leaves alone one by one is left alone whole. */
  lemma {:induction false} LowerKeeps(s: string)
    requires forall i :: 0 <= i < |s| ==> LowerChar(s[i]) == [s[i]]
    ensures Lower(s) == s
    decreases |s|
  {
    if s != [] {
      LowerKeeps(s[1..]);
      assert s == [s[0]] + s[1..];
    }
  }

  /** A character that `toLowerCase` leaves alone stays in place between two lower-cased parts. */
  lemma LowerAround(pre: string, c: char, post: string)
    requires LowerChar(c) == [c]
    ensures Lower(pre + [c] + post) == Lower(pre) + [c] + Lower(post)
  {
    LowerAppend(pre, [c]);
    LowerAppend(pre + [c], post);
    assert Lower([c]) == [c] by {
      assert [c][1..] == [];
    }
  }

  // ---------------------------------------------------------------------------
  // replace(/\s+/g, ' ')
  // ---------------------------------------------------------------------------

  /** Every run of `\s` characters replaced by one blank. */
  function CollapseSpaces(s: string): (r: string)
    ensures s == [] <==> r == []
    ensures r != [] ==> (IsSpace(s[0]) <==> r[0] == ' ') && (!IsSpace(s[0]) ==> r[0] == s[0])
    ensures forall i :: 0 <= i < |r| && IsSpace(r[i]) ==> r[i] == ' '
    ensures forall i :: 0 <= i < |r| - 1 ==> !(IsSpace(r[i]) && IsSpace(r[i + 1]))
    decreases |s|
  {
    if s == [] then []
    else if IsSpace(s[0]) then
      var n := LeadingSpaces(s);
      var rest := CollapseSpaces(s[n..]);
      assert rest != [] ==> !IsSpace(rest[0]);
      " " + rest
    else
      [s[0]] + CollapseSpaces(s[1..])
  }

  /** The characters of s that are not `\s`, in order. */
  function NonSpaces(s: string): string {
    if s == [] then [] else (if IsSpace(s[0]) then [] else [s[0]]) + NonSpaces(s[1..])
  }

  /** The number of maximal `\s` runs in s, counted at the last character of each run. */
  function SpaceRuns(s: string): nat {
    if s == [] then 0
    else (if IsSpace(s[0]) && (|s| == 1 || !IsSpace(s[1])) then 1 else 0) + SpaceRuns(s[1..])
  }

  /** A leading run of n blanks adds nothing to the non-blank characters and one run. */
  lemma {:induction false} SkipSpaces(s: string, n: nat)
    requires 0 < n <= |s| && AllSpace(s[..n]) && (n == |s| || !IsSpace(s[n]))
    ensures NonSpaces(s) == NonSpaces(s[n..])
    ensures SpaceRuns(s) == 1 + SpaceRuns(s[n..])
    decreases n
  {
    assert IsSpace(s[0]) by {
      assert s[0] == s[..n][0];
    }
    if n > 1 {
      var t := s[1..];
      assert t[..n - 1] == s[..n][1..];
      assert n - 1 == |t| || !IsSpace(t[n - 1]);
      SkipSpaces(t, n - 1);
      assert t[n - 1..] == s[n..];
      assert IsSpace(s[1]) by {
        assert s[1] == s[..n][1];
      }
    } else {
      assert s[1..] == s[n..];
    }
  }

  /** Collapsing keeps the non-blank characters in order and leaves one blank per whitespace run. */
  lemma {:induction false} CollapseSpacesContent(s: string)
    ensures NonSpaces(CollapseSpaces(s)) == NonSpaces(s)
    ensures SpaceRuns(CollapseSpaces(s)) == SpaceRuns(s)
    decreases |s|
  {
    if s != [] {
      var r := CollapseSpaces(s);
      if IsSpace(s[0]) {
        var n := LeadingSpaces(s);
        CollapseSpacesContent(s[n..]);
        SkipSpaces(s, n);
        assert r[1..] == CollapseSpaces(s[n..]);
      } else {
        assert r[1..] == CollapseSpaces(s[1..]);
        CollapseSpacesContent(s[1..]);
      }
    }
  }

  lemma {:induction false} NonSpacesAppend(a: string, b: string)
    ensures NonSpaces(a + b) == NonSpaces(a) + NonSpaces(b)
    decreases |a|
  {
    if a == [] {
      assert a + b == b;
    } else {
      assert (a + b)[1..] == a[1..] + b;
      NonSpacesAppend(a[1..], b);
    }
  }

  lemma {:induction false} NonSpacesOfSpaces(w: string)
    requires AllSpace(w)
    ensures NonSpaces(w) == []
    decreases |w|
  {
    if w != [] {
      NonSpacesOfSpaces(w[1..]);
    }
  }

  /** Trimming removes only blanks: the non-blank characters stay. */
  lemma TrimNonSpaces(s: string)
    ensures NonSpaces(Trim(s)) == NonSpaces(s)
  {
    var r := Trim(s);
    var a := LeadingSpaces(s);
    var e := a + |r|;
    SplitThree(s, a, e);
    NonSpacesFrame(s[..a], s[a..e], s[e..]);
  }

  lemma SplitThree(s: string, a: nat, e: nat)
    requires a <= e <= |s|
    ensures s == s[..a] + s[a..e] + s[e..]
  {
  }

  /** Blanks around a text add no non-blank character. */
  lemma NonSpacesFrame(p: string, r: string, q: string)
    requires AllSpace(p) && AllSpace(q)
    ensures NonSpaces(p + r + q) == NonSpaces(r)
  {
    NonSpacesAppend(p + r, q);
    NonSpacesAppend(p, r);
    NonSpacesOfSpaces(p);
    NonSpacesOfSpaces(q);
    assert [] + NonSpaces(r) + [] == NonSpaces(r);
  }

  // ---------------------------------------------------------------------------
  // Decimal digits
  // ---------------------------------------------------------------------------

  function DigitValue(c: char): nat
    requires IsDigit(c)
  {
    c as int - '0' as int
  }

  function DigitChar(d: nat): (c: char)
    requires d < 10
    ensures IsDigit(c) && DigitValue(c) == d
  {
    ('0' as int + d) as char
  }

  /** `parseInt(s, 10)` of a string of decimal digits (leading zeros allowed). */
  function DigitsValue(s: string): nat
    requires AllDigits(s)
  {
    if s == [] then 0 else 10 * DigitsValue(s[..|s| - 1]) + DigitValue(s[|s| - 1])
  }

  /** The decimal numeral of n, without leading zeros. */
  function NatToDigits(n: nat): (s: string)
    ensures IsDigits(s)
    ensures |s| > 1 ==> s[0] != '0'
  {
    if n < 10 then [DigitChar(n)] else NatToDigits(n / 10) + [DigitChar(n % 10)]
  }

  /** `parseInt` reads back the numeral of n. */
  lemma {:induction false} DigitsValueOfNat(n: nat)
    ensures DigitsValue(NatToDigits(n)) == n
  {
    var s := NatToDigits(n);
    if n >= 10 {
      DigitsValueOfNat(n / 10);
      assert s[..|s| - 1] == NatToDigits(n / 10);
    }
  }
}
