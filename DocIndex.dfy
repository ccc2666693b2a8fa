/**
 * `extractDocListFromIndex`: the documents an index page links to, each
 * tagged with the `###` section it is listed under.
 *
 * The heading regex `^###\s+(.+)$` runs with the `g` and `m` flags over the
 * whole text, so `^` and `$` hold at line boundaries and `\s+` may run across
 * line breaks; it is modelled character by character. The link regex
 * `\]\((\.\/)?([^)]+\.md)\)` runs with `g` over each section's block.
 */
module DocIndex {

  import opened Options
  import opened Text
  import opened JsValue

  datatype DocEntry = DocEntry(section: string, path: string)

  /** A `###` heading: its trimmed title and the offset of its first `#`. */
  datatype Heading = Heading(title: string, start: nat)

  /** One match of the heading regex: where it starts, where the capture starts and where both end. */
  datatype HeadingMatch = HeadingMatch(start: nat, body: nat, end: nat)

  /** `^` in multiline mode. */
  predicate AtLineStart(t: string, p: nat)
    requires p <= |t|
  {
    p == 0 || IsLineTerminator(t[p - 1])
  }

  lemma TerminatorIsSpace(c: char)
    requires IsLineTerminator(c)
    ensures IsSpace(c)
  {
  }

  /** The last offset in [lo, hi) that does not hold a line terminator. */
  function LastNonTerminator(t: string, lo: nat, hi: nat): (j: Option<nat>)
    requires lo <= hi <= |t|
    ensures j.Some? ==> lo <= j.value < hi && !IsLineTerminator(t[j.value])
    ensures j.Some? ==> forall k :: j.value < k < hi ==> IsLineTerminator(t[k])
    ensures j.None? ==> forall k :: lo <= k < hi ==> IsLineTerminator(t[k])
    decreases hi - lo
  {
    if hi == lo then None
    else if !IsLineTerminator(t[hi - 1]) then Some(hi - 1)
    else LastNonTerminator(t, lo, hi - 1)
  }

  /** A whitespace prefix is never longer than the whitespace run. */
  lemma {:induction false} SpacesBound(s: string, j: nat)
    requires j <= |s| && AllSpace(s[..j])
    ensures j <= LeadingSpaces(s)
    decreases j
  {
    if j > 0 {
      assert IsSpace(s[..j][0]);
      assert s[1..][..j - 1] == s[..j][1..];
      SpacesBound(s[1..], j - 1);
    }
  }

  /** `^###` at offset p. */
  predicate OpensHeading(t: string, p: nat)
    requires p <= |t|
  {
    AtLineStart(t, p) && p + 3 <= |t| && t[p..p + 3] == "###"
  }

  /**
   * The heading regex matched at offset p. The capture starts at the last
   * offset the `\s+` run can reach that is not a line terminator (greedy
   * `\s+` backs off only that far), and `(.+)$` takes the rest of that line.
   */
  function HeadingAt(t: string, p: nat): (m: Option<HeadingMatch>)
    requires p <= |t|
    ensures m.Some? ==> m.value.start == p && p + 4 <= m.value.body < m.value.end <= |t|
  {
    if !OpensHeading(t, p) then None
    else
      match SpaceRunCapture(t, p)
      case None => None
      case Some(j) =>
        var n := LeadingNonTerminators(t[j..]);
        Some(HeadingMatch(p, j, j + n))
  }

  /**
   * What a heading match is: `###` at a line start, a run of `\s` up to the
   * capture, a capture free of line terminators running to the end of its
   * line, and no later start within the run that is not a line terminator;
   * there is no match exactly when no such start exists.
   */
  lemma HeadingAtMatch(t: string, p: nat)
    requires p <= |t|
    ensures var m := HeadingAt(t, p);
      m.Some? ==> (AtLineStart(t, p) && t[p..p + 3] == "###"
        && AllSpace(t[p + 3..m.value.body]) && NoLineTerminator(t[m.value.body..m.value.end])
        && (m.value.end == |t| || IsLineTerminator(t[m.value.end]))
        && forall j :: m.value.body < j < |t| && AllSpace(t[p + 3..j]) ==> IsLineTerminator(t[j]))
    ensures HeadingAt(t, p).None? <==> (!(AtLineStart(t, p) && p + 3 <= |t| && t[p..p + 3] == "###")
      || forall j :: p + 4 <= j < |t| && AllSpace(t[p + 3..j]) ==> IsLineTerminator(t[j]))
  {
    if OpensHeading(t, p) {
      match SpaceRunCapture(t, p)
      case None =>
        NoCapture(t, p);
      case Some(j) =>
        Capture(t, p, j);
        var n := LeadingNonTerminators(t[j..]);
        assert t[j..j + n] == t[j..][..n];
    }
  }

  /**
   * Where the capture of `(.+)$` starts after the `###` at p: the last offset
   * the `\s+` run after it reaches that is not a line terminator.
   */
  function SpaceRunCapture(t: string, p: nat): (j: Option<nat>)
    requires p + 3 <= |t|
    ensures j.Some? ==> p + 4 <= j.value < |t| && !IsLineTerminator(t[j.value])
  {
    var w := LeadingSpaces(t[p + 3..]);
    if w == 0 then None else LastNonTerminator(t, p + 4, RunLimit(t, p))
  }

  /** One past the end of the `\s` run after the `###` at p, counting the character that stops it. */
  function RunLimit(t: string, p: nat): (hi: nat)
    requires p + 3 <= |t|
    ensures hi <= |t|
  {
    var w := LeadingSpaces(t[p + 3..]);
    if p + 3 + w < |t| then p + 3 + w + 1 else |t|
  }

  /** Every offset a `\s` run from p + 3 can reach lies below the run limit. */
  lemma RunBelowLimit(t: string, p: nat, j: nat)
    requires p + 3 <= j < |t| && AllSpace(t[p + 3..j])
    ensures j < RunLimit(t, p) && j - (p + 3) <= LeadingSpaces(t[p + 3..])
  {
    var r := t[p + 3..];
    assert r[..j - (p + 3)] == t[p + 3..j];
    SpacesBound(r, j - (p + 3));
  }

  lemma NoCapture(t: string, p: nat)
    requires p + 3 <= |t| && SpaceRunCapture(t, p).None?
    ensures forall j :: p + 4 <= j < |t| && AllSpace(t[p + 3..j]) ==> IsLineTerminator(t[j])
  {
    forall j | p + 4 <= j < |t| && AllSpace(t[p + 3..j]) ensures IsLineTerminator(t[j]) {
      RunBelowLimit(t, p, j);
    }
  }

  lemma Capture(t: string, p: nat, j: nat)
    requires p + 3 <= |t| && SpaceRunCapture(t, p) == Some(j)
    ensures AllSpace(t[p + 3..j])
    ensures forall q :: j < q < |t| && AllSpace(t[p + 3..q]) ==> IsLineTerminator(t[q])
  {
    var r := t[p + 3..];
    var w := LeadingSpaces(r);
    assert j < RunLimit(t, p) && j - (p + 3) <= w;
    assert t[p + 3..j] == r[..w][..j - (p + 3)];
    forall q | j < q < |t| && AllSpace(t[p + 3..q]) ensures IsLineTerminator(t[q]) {
      RunBelowLimit(t, p, q);
    }
  }

  /** `sectionRe.exec(t)` with `lastIndex` at from. */
  function NextHeading(t: string, from: nat): (m: Option<HeadingMatch>)
    requires from <= |t|
    ensures m.Some? ==> from <= m.value.start <= |t| && HeadingAt(t, m.value.start) == m
    decreases |t| - from
  {
    if HeadingAt(t, from).Some? then HeadingAt(t, from)
    else if from == |t| then None
    else NextHeading(t, from + 1)
  }

  /** The match `exec` returns is the leftmost one at or after from. */
  lemma {:induction false} NextHeadingLeftmost(t: string, from: nat)
    requires from <= |t| && NextHeading(t, from).Some?
    ensures forall q :: from <= q < NextHeading(t, from).value.start ==> HeadingAt(t, q).None?
    decreases |t| - from
  {
    if HeadingAt(t, from).None? {
      NextHeadingStep(t, from);
      var s := NextHeading(t, from + 1).value.start;
      NextHeadingLeftmost(t, from + 1);
      NoHeadingBefore(t, from, s);
    }
  }

  /** With no heading at from, `exec` goes on from the next offset. */
  lemma NextHeadingStep(t: string, from: nat)
    requires from <= |t| && HeadingAt(t, from).None? && NextHeading(t, from).Some?
    ensures from < |t| && NextHeading(t, from) == NextHeading(t, from + 1)
  {
  }

  /** No heading at from and none in (from, s): none in [from, s). */
  lemma NoHeadingBefore(t: string, from: nat, s: nat)
    requires from < s <= |t| + 1 && HeadingAt(t, from).None?
    requires forall q :: from + 1 <= q < s ==> HeadingAt(t, q).None?
    ensures forall q :: from <= q < s ==> HeadingAt(t, q).None?
  {
    forall q | from <= q < s ensures HeadingAt(t, q).None? {
      if q > from {
        assert from + 1 <= q < s;
      }
    }
  }

  /** When `exec` returns null, no heading starts at or after from. */
  lemma {:induction false} NextHeadingNone(t: string, from: nat)
    requires from <= |t| && NextHeading(t, from).None?
    ensures forall q :: from <= q <= |t| ==> HeadingAt(t, q).None?
    decreases |t| - from
  {
    if from < |t| {
      NextHeadingNone(t, from + 1);
      NoHeadingBefore(t, from, |t| + 1);
    }
  }

  /** Headings start inside the text, one after another. */
  predicate Ordered(t: string, hs: seq<Heading>) {
    && (forall k :: 0 <= k < |hs| ==> hs[k].start < |t|)
    && (forall k, l :: 0 <= k < l < |hs| ==> hs[k].start < hs[l].start)
  }

  /** The headings the exec loop collects from offset from on, in document order. */
  function HeadingsFrom(t: string, from: nat): (hs: seq<Heading>)
    requires from <= |t|
    ensures Ordered(t, hs)
    ensures forall k :: 0 <= k < |hs| ==> from <= hs[k].start
    decreases |t| - from
  {
    match NextHeading(t, from)
    case None => []
    case Some(m) =>
      var rest := HeadingsFrom(t, m.end);
      var h := Heading(Trim(t[m.body..m.end]), m.start);
      assert HeadingAt(t, m.start) == Some(m);
      assert from <= m.start < m.end <= |t|;
      OrderedCons(t, from, h, rest);
      [h] + rest
  }

  lemma OrderedCons(t: string, from: nat, h: Heading, rest: seq<Heading>)
    requires Ordered(t, rest) && from <= h.start < |t|
    requires forall k :: 0 <= k < |rest| ==> h.start < rest[k].start
    ensures Ordered(t, [h] + rest)
    ensures forall k :: 0 <= k < |[h] + rest| ==> from <= ([h] + rest)[k].start
  {
  }

  // ---------------------------------------------------------------------------
  // Links
  // ---------------------------------------------------------------------------

  /** One match of the link regex: group 2 and the offset after the `)`. */
  datatype LinkMatch = LinkMatch(target: string, end: nat)

  /**
   * The link regex matched at offset i of a block: `](`, then everything up
   * to the first `)`, which must end in `.md`; a leading `./` goes to
   * group 1 when what follows it is still `[^)]+\.md`.
   */
  function LinkAt(b: string, i: nat): (m: Option<LinkMatch>)
    requires i <= |b|
    ensures m.Some? ==> i + 2 < m.value.end <= |b| && b[i..i + 2] == "](" && b[m.value.end - 1] == ')'
    ensures m.Some? ==> |m.value.target| >= 4 && EndsWith(m.value.target, ".md") && ')' !in m.value.target
  {
    if !(i + 2 <= |b| && b[i..i + 2] == "](") then None
    else match IndexOf(b, ")", i + 2)
      case None => None
      case Some(c) =>
        CloseParen(b, i + 2, c);
        LinkOf(b[i + 2..c], c + 1)
  }

  /**
   * The link regex matches at offset i exactly when `](` stands there and the
   * text up to the first `)` is a link text; group 2 is that text, less a
   * leading `./` only when enough is left for `[^)]+\.md`.
   */
  lemma LinkAtExact(b: string, i: nat)
    requires i <= |b|
    ensures LinkAt(b, i).Some? <==>
      (i + 2 <= |b| && b[i..i + 2] == "](" && IndexOf(b, ")", i + 2).Some? && IsLinkText(b[i + 2..IndexOf(b, ")", i + 2).value]))
    ensures LinkAt(b, i).Some? ==> var m := LinkAt(b, i).value;
      IndexOf(b, ")", i + 2) == Some(m.end - 1) && m.target == LinkTarget(b[i + 2..m.end - 1])
  {
    if i + 2 <= |b| && b[i..i + 2] == "](" && IndexOf(b, ")", i + 2).Some? {
      var c := IndexOf(b, ")", i + 2).value;
      CloseParen(b, i + 2, c);
    }
  }

  /** The first `)` from offset from on is at c, and none lies before it. */
  lemma CloseParen(b: string, from: nat, c: nat)
    requires from <= |b| && IndexOf(b, ")", from) == Some(c)
    ensures from <= c < |b| && b[c] == ')' && ')' !in b[from..c]
  {
    var x := b[from..c];
    forall k | 0 <= k < |x| ensures x[k] != ')' {
      assert !OccursAt(b, ")", from + k);
    }
    assert b[c] == b[c..c + 1][0];
  }

  /** The text between `](` and the first `)` is a link when `[^)]+\.md` can match all of it. */
  predicate IsLinkText(x: string) {
    |x| >= 4 && EndsWith(x, ".md")
  }

  /**
   * Group 2 of a link text: without a leading `./` only when what follows is
   * still one character and `.md`; otherwise the regex backtracks and keeps it.
   */
  function LinkTarget(x: string): string {
    if |x| >= 6 && x[..2] == "./" then x[2..] else x
  }

  /** The two branches of the link group for the text x between `](` and the `)` before end. */
  function LinkOf(x: string, end: nat): (m: Option<LinkMatch>)
    requires ')' !in x
    ensures m.Some? ==> m.value.end == end && |m.value.target| >= 4
    ensures m.Some? ==> EndsWith(m.value.target, ".md") && ')' !in m.value.target
    ensures m.Some? <==> IsLinkText(x)
    ensures m.Some? ==> m.value.target == LinkTarget(x)
  {
    if |x| >= 6 && x[..2] == "./" && EndsWith(x, ".md") then
      assert x[2..][|x[2..]| - 3..] == x[|x| - 3..];
      Some(LinkMatch(x[2..], end))
    else if |x| >= 4 && EndsWith(x, ".md") then Some(LinkMatch(x, end))
    else None
  }

  /** `linkRe2.exec(block)` with `lastIndex` at from. */
  function NextLink(b: string, from: nat): (m: Option<(nat, LinkMatch)>)
    requires from <= |b|
    ensures m.Some? ==> from <= m.value.0 <= |b| && LinkAt(b, m.value.0) == Some(m.value.1)
    decreases |b| - from
  {
    var l := LinkAt(b, from);
    if l.Some? then Some((from, l.value))
    else if from == |b| then None
    else NextLink(b, from + 1)
  }

  /** The link `exec` returns is the leftmost one at or after from. */
  lemma {:induction false} NextLinkLeftmost(b: string, from: nat)
    requires from <= |b| && NextLink(b, from).Some?
    ensures forall q :: from <= q < NextLink(b, from).value.0 ==> LinkAt(b, q).None?
    decreases |b| - from
  {
    if LinkAt(b, from).None? {
      var s := NextLink(b, from + 1).value.0;
      NextLinkLeftmost(b, from + 1);
      assert NextLink(b, from).value.0 == s;
      forall q | from <= q < s ensures LinkAt(b, q).None? {
        if q > from {
          assert from + 1 <= q < s;
        }
      }
    }
  }

  /** When `exec` returns null, no link starts at or after from. */
  lemma {:induction false} NextLinkNone(b: string, from: nat)
    requires from <= |b| && NextLink(b, from).None?
    ensures forall q :: from <= q <= |b| ==> LinkAt(b, q).None?
    decreases |b| - from
  {
    if from < |b| {
      NextLinkNone(b, from + 1);
      forall q | from <= q <= |b| ensures LinkAt(b, q).None? {
        if q > from {
          assert from + 1 <= q;
        }
      }
    }
  }

  /** `.replace(/^\.\//, '')` */
  function StripDotSlash(s: string): string {
    if StartsWith(s, "./") then s[2..] else s
  }

  /** The paths of the links of a block from offset from on, in order, duplicates kept. */
  function PathsFrom(b: string, from: nat): (ps: seq<string>)
    requires from <= |b|
    decreases |b| - from
  {
    match NextLink(b, from)
    case None => []
    case Some((_, l)) => [StripDotSlash(l.target)] + PathsFrom(b, l.end)
  }

  /** The `seen` filter: the paths in first-seen order, each once, none already in seen. */
  function Dedup(seen: set<string>, ps: seq<string>): seq<string>
    decreases |ps|
  {
    if ps == [] then []
    else if EndsWith(ps[0], ".md") && ps[0] !in seen then [ps[0]] + Dedup(seen + {ps[0]}, ps[1..])
    else Dedup(seen, ps[1..])
  }

  function Tag(title: string, ps: seq<string>): (es: seq<DocEntry>)
    ensures |es| == |ps| && forall k :: 0 <= k < |ps| ==> es[k] == DocEntry(title, ps[k])
  {
    seq(|ps|, k requires 0 <= k < |ps| => DocEntry(title, ps[k]))
  }

  /** Where the block of heading k ends: at the next heading, or at the end of the text. */
  function BlockEnd(t: string, hs: seq<Heading>, k: nat): (e: nat)
    requires Ordered(t, hs) && k < |hs|
    ensures hs[k].start < e <= |t|
  {
    if k + 1 < |hs| then hs[k + 1].start else |t|
  }

  function Block(t: string, hs: seq<Heading>, k: nat): string
    requires Ordered(t, hs) && k < |hs|
  {
    t[hs[k].start..BlockEnd(t, hs, k)]
  }

  /** The entries the block of heading k contributes. */
  function BlockEntriesOf(t: string, hs: seq<Heading>, k: nat): seq<DocEntry>
    requires Ordered(t, hs) && k < |hs|
  {
    Tag(hs[k].title, Dedup({}, PathsFrom(Block(t, hs, k), 0)))
  }

  /** The entries of the first n blocks. */
  function EntriesUpTo(t: string, hs: seq<Heading>, n: nat): seq<DocEntry>
    requires Ordered(t, hs) && n <= |hs|
  {
    if n == 0 then [] else EntriesUpTo(t, hs, n - 1) + BlockEntriesOf(t, hs, n - 1)
  }

  /** What `extractDocListFromIndex(raw)` returns. */
  function DocList(raw: Value): seq<DocEntry> {
    match NonEmptyText(raw)
    case None => []
    case Some(t) =>
      var hs := HeadingsFrom(t, 0);
      EntriesUpTo(t, hs, |hs|)
  }

  /** `extractDocListFromIndex(raw)`, loop for loop. */
  method ExtractDocListFromIndex(raw: Value) returns (list: seq<DocEntry>)
    ensures list == DocList(raw)
  {
    list := [];
    if !(raw.Str? && raw.s != []) {
      return;
    }
    var t := raw.s;
    ghost var hs := HeadingsFrom(t, 0);
    var sections: seq<Heading> := [];
    var from := 0;
    var m := NextHeading(t, from);
    while m.Some?
      invariant from <= |t| && m == NextHeading(t, from)
      invariant sections + HeadingsFrom(t, from) == hs
      decreases |t| - from
    {
      var h := m.value;
      var heading := Heading(Trim(t[h.body..h.end]), h.start);
      HeadingsStep(t, from);
      ConcatAssoc(sections, [heading], HeadingsFrom(t, h.end));
      sections := sections + [heading];
      from := h.end;
      m := NextHeading(t, from);
    }
    assert sections + [] == sections;
    sections := sections + [Heading("Outros", |t|)];
    list := SectionEntries(t, hs, sections);
  }

  /** One turn of the exec loop: the next match becomes the next heading. */
  lemma HeadingsStep(t: string, from: nat)
    requires from <= |t| && NextHeading(t, from).Some?
    ensures var h := NextHeading(t, from).value;
      h.body <= h.end <= |t|
      && HeadingsFrom(t, from) == [Heading(Trim(t[h.body..h.end]), h.start)] + HeadingsFrom(t, h.end)
  {
  }

  /**
   * The loop over the sections of `extractDocListFromIndex`: the entries of
   * each heading's block, the block running up to the next heading or, for
   * the last one, up to the `'Outros'` sentinel at the end of the text.
   */
  method SectionEntries(t: string, ghost hs: seq<Heading>, sections: seq<Heading>) returns (list: seq<DocEntry>)
    requires Ordered(t, hs) && sections == hs + [Heading("Outros", |t|)]
    ensures list == EntriesUpTo(t, hs, |hs|)
  {
    list := [];
    var i := 0;
    while i < |sections| - 1
      invariant 0 <= i <= |hs|
      invariant list == EntriesUpTo(t, hs, i)
    {
      SectionBlock(t, hs, sections, i);
      var entries := BlockEntries(sections[i].title, t[sections[i].start..sections[i + 1].start]);
      EntriesStep(t, hs, i);
      list := list + entries;
      i := i + 1;
    }
  }

  /** Section i of the loop is heading i, and its block ends where the next section starts. */
  lemma SectionBlock(t: string, hs: seq<Heading>, sections: seq<Heading>, i: nat)
    requires Ordered(t, hs) && sections == hs + [Heading("Outros", |t|)] && i < |hs|
    ensures sections[i] == hs[i] && sections[i + 1].start == BlockEnd(t, hs, i)
    ensures sections[i].start <= sections[i + 1].start <= |t|
    ensures t[sections[i].start..sections[i + 1].start] == Block(t, hs, i)
  {
    assert sections[i] == hs[i];
    assert sections[i + 1].start == BlockEnd(t, hs, i);
  }

  lemma EntriesStep(t: string, hs: seq<Heading>, i: nat)
    requires Ordered(t, hs) && i < |hs|
    ensures EntriesUpTo(t, hs, i + 1) == EntriesUpTo(t, hs, i) + BlockEntriesOf(t, hs, i)
  {
  }

  /** The inner loop of `extractDocListFromIndex`: the links of one block, each path once. */
  method BlockEntries(title: string, block: string) returns (entries: seq<DocEntry>)
    ensures entries == Tag(title, Dedup({}, PathsFrom(block, 0)))
  {
    ghost var all := Dedup({}, PathsFrom(block, 0));
    ghost var found: seq<string> := [];
    entries := [];
    var seen: set<string> := {};
    var at := 0;
    var link := NextLink(block, at);
    while link.Some?
      invariant at <= |block| && link == NextLink(block, at)
      invariant found + Dedup(seen, PathsFrom(block, at)) == all
      invariant entries == Tag(title, found)
      decreases |block| - at
    {
      var l := link.value.1;
      var path := StripDotSlash(l.target);
      PathsStep(block, at);
      ghost var rest := PathsFrom(block, l.end);
      if EndsWith(path, ".md") && path !in seen {
        ConcatAssoc(found, [path], Dedup(seen + {path}, rest));
        TagSnoc(title, found, path);
        seen := seen + {path};
        entries := entries + [DocEntry(title, path)];
        found := found + [path];
      }
      at := l.end;
      link := NextLink(block, at);
    }
  }

  /** One turn of the link loop: the next match's path heads the remaining paths. */
  lemma PathsStep(b: string, at: nat)
    requires at <= |b| && NextLink(b, at).Some?
    ensures var l := NextLink(b, at).value.1;
      l.end <= |b| && PathsFrom(b, at) == [StripDotSlash(l.target)] + PathsFrom(b, l.end)
  {
  }

  lemma TagSnoc(title: string, ps: seq<string>, p: string)
    ensures Tag(title, ps + [p]) == Tag(title, ps) + [DocEntry(title, p)]
  {
    var a := Tag(title, ps + [p]);
    var b := Tag(title, ps) + [DocEntry(title, p)];
    assert |a| == |b|;
    forall k | 0 <= k < |a| ensures a[k] == b[k] {
      if k < |ps| {
        assert (ps + [p])[k] == ps[k];
      }
    }
  }

  // ---------------------------------------------------------------------------
  // Properties
  // ---------------------------------------------------------------------------

  /** The `endsWith('.md')` test always passes: every link target ends in `.md`, with or without `./`. */
  lemma StrippedEndsWithMd(g: string)
    requires |g| >= 4 && EndsWith(g, ".md")
    ensures EndsWith(StripDotSlash(g), ".md")
  {
    if StartsWith(g, "./") {
      assert g[|g| - 3] == '.' && g[1] == '/';
      assert g[2..][|g[2..]| - 3..] == g[|g| - 3..];
    }
  }

  /** Every path of a block ends in `.md`. */
  lemma {:induction false} PathsEndWithMd(b: string, from: nat)
    requires from <= |b|
    ensures forall k :: 0 <= k < |PathsFrom(b, from)| ==> EndsWith(PathsFrom(b, from)[k], ".md")
    decreases |b| - from
  {
    match NextLink(b, from)
    case None =>
    case Some((_, l)) =>
      StrippedEndsWithMd(l.target);
      PathsEndWithMd(b, l.end);
  }

  /** The seen filter keeps each path once, never one already seen, and only paths it was given. */
  predicate NoDuplicates(r: seq<string>) {
    forall k, l :: 0 <= k < l < |r| ==> r[k] != r[l]
  }

  /** The seen filter keeps each path once, never one already seen, and only paths it was given. */
  lemma DedupDistinct(seen: set<string>, ps: seq<string>)
    ensures NoDuplicates(Dedup(seen, ps))
    ensures forall x :: x in Dedup(seen, ps) ==> x !in seen && x in ps
  {
    DedupFrom(seen, ps);
    DedupOnce(seen, ps);
  }

  /** Every kept path was given and not already seen. */
  lemma {:induction false} DedupFrom(seen: set<string>, ps: seq<string>)
    ensures forall x :: x in Dedup(seen, ps) ==> x !in seen && x in ps
    decreases |ps|
  {
    if ps != [] {
      var rest := ps[1..];
      assert forall x :: x in rest ==> x in ps;
      if EndsWith(ps[0], ".md") && ps[0] !in seen {
        DedupFrom(seen + {ps[0]}, rest);
        assert Dedup(seen, ps) == [ps[0]] + Dedup(seen + {ps[0]}, rest);
      } else {
        DedupFrom(seen, rest);
      }
    }
  }

  /** No path is kept twice. */
  lemma {:induction false} DedupOnce(seen: set<string>, ps: seq<string>)
    ensures NoDuplicates(Dedup(seen, ps))
    decreases |ps|
  {
    if ps != [] {
      var rest := ps[1..];
      if EndsWith(ps[0], ".md") && ps[0] !in seen {
        var r' := Dedup(seen + {ps[0]}, rest);
        DedupOnce(seen + {ps[0]}, rest);
        DedupFrom(seen + {ps[0]}, rest);
        ConsDistinct(ps[0], r');
        assert Dedup(seen, ps) == [ps[0]] + r';
      } else {
        DedupOnce(seen, rest);
      }
    }
  }

  lemma ConsDistinct(p: string, r: seq<string>)
    requires NoDuplicates(r) && p !in r
    ensures NoDuplicates([p] + r)
  {
    var s := [p] + r;
    forall k, l | 0 <= k < l < |s| ensures s[k] != s[l] {
      assert s[l] == r[l - 1] && r[l - 1] in r;
      if k > 0 {
        assert s[k] == r[k - 1];
      }
    }
  }

  /** ...and drops no path ending in `.md` that it has not seen. */
  lemma {:induction false} DedupComplete(seen: set<string>, ps: seq<string>, x: string)
    requires x in ps && x !in seen && EndsWith(x, ".md")
    ensures x in Dedup(seen, ps)
    decreases |ps|
  {
    if ps[0] != x {
      assert x in ps[1..];
      if EndsWith(ps[0], ".md") && ps[0] !in seen {
        DedupComplete(seen + {ps[0]}, ps[1..], x);
      } else {
        DedupComplete(seen, ps[1..], x);
      }
    }
  }

  /** The `.md` paths among ps. */
  function MdPaths(ps: seq<string>): set<string> {
    set x | x in ps && EndsWith(x, ".md")
  }

  lemma MdPathsCons(ps: seq<string>)
    requires ps != []
    ensures EndsWith(ps[0], ".md") ==> MdPaths(ps) == {ps[0]} + MdPaths(ps[1..])
    ensures !EndsWith(ps[0], ".md") ==> MdPaths(ps) == MdPaths(ps[1..])
  {
    assert forall x :: x in ps <==> x == ps[0] || x in ps[1..];
  }

  /**
   * First-seen order: the paths kept from a + b are those kept from a, in
   * their order, then those kept from b that a did not already supply.
   */
  lemma {:induction false} DedupAppend(seen: set<string>, a: seq<string>, b: seq<string>)
    ensures Dedup(seen, a + b) == Dedup(seen, a) + Dedup(seen + MdPaths(a), b)
    decreases |a|
  {
    if a == [] {
      assert a + b == b;
      assert MdPaths(a) == {};
      assert seen + {} == seen;
    } else {
      var x := a[0];
      assert (a + b)[0] == x && (a + b)[1..] == a[1..] + b;
      MdPathsCons(a);
      if EndsWith(x, ".md") && x !in seen {
        DedupAppend(seen + {x}, a[1..], b);
        assert seen + {x} + MdPaths(a[1..]) == seen + MdPaths(a);
      } else {
        DedupAppend(seen, a[1..], b);
        assert seen + MdPaths(a[1..]) == seen + MdPaths(a);
      }
    }
  }

  /** Every entry of the first n blocks comes from the block of one of the first n headings, the k-th. */
  lemma EntryOrigin(t: string, hs: seq<Heading>, n: nat, e: DocEntry) returns (k: nat)
    requires Ordered(t, hs) && n <= |hs| && e in EntriesUpTo(t, hs, n)
    ensures k < n && e in BlockEntriesOf(t, hs, k)
  {
    EntriesJoined(t, hs, n);
    k := JoinedOrigin(BlockLists(t, hs, n), e);
  }

  /** The parts, one after another. */
  function Joined<T>(parts: seq<seq<T>>): seq<T> {
    if parts == [] then [] else Joined(parts[..|parts| - 1]) + parts[|parts| - 1]
  }

  lemma {:induction false} JoinedOrigin<T>(parts: seq<seq<T>>, x: T) returns (k: nat)
    requires x in Joined(parts)
    ensures k < |parts| && x in parts[k]
    decreases |parts|
  {
    var init := parts[..|parts| - 1];
    InJoin(Joined(init), parts[|parts| - 1], x);
    if x in Joined(init) {
      k := JoinedOrigin(init, x);
      assert init[k] == parts[k];
    } else {
      k := |parts| - 1;
    }
  }

  /** The entries of each of the first n blocks. */
  function BlockLists(t: string, hs: seq<Heading>, n: nat): (r: seq<seq<DocEntry>>)
    requires Ordered(t, hs) && n <= |hs|
    ensures |r| == n && forall k :: 0 <= k < n ==> r[k] == BlockEntriesOf(t, hs, k)
  {
    seq(n, k requires 0 <= k < n => BlockEntriesOf(t, hs, k))
  }

  lemma {:induction false} EntriesJoined(t: string, hs: seq<Heading>, n: nat)
    requires Ordered(t, hs) && n <= |hs|
    ensures EntriesUpTo(t, hs, n) == Joined(BlockLists(t, hs, n))
    decreases n
  {
    if n > 0 {
      EntriesJoined(t, hs, n - 1);
      assert BlockLists(t, hs, n)[..n - 1] == BlockLists(t, hs, n - 1);
    }
  }

  lemma InJoin<T>(a: seq<T>, b: seq<T>, x: T)
    requires x in a + b
    ensures x in a || x in b
  {
  }

  /**
   * An entry of the list: a `.md` link target of the block of some heading k,
   * the text from heading k up to the next one, under heading k's title.
   */
  lemma EntryPlaced(t: string, hs: seq<Heading>, e: DocEntry)
    requires Ordered(t, hs) && e in EntriesUpTo(t, hs, |hs|)
    ensures EndsWith(e.path, ".md")
    ensures exists k :: 0 <= k < |hs| && e.section == hs[k].title && e.path in PathsFrom(Block(t, hs, k), 0)
  {
    var k := EntryOrigin(t, hs, |hs|, e);
    BlockShape(hs[k].title, Block(t, hs, k));
    BlockEntryFrom(hs[k].title, Block(t, hs, k), e);
  }

  /** An entry of one block names one of the block's link targets. */
  lemma BlockEntryFrom(title: string, b: string, e: DocEntry)
    requires e in Tag(title, Dedup({}, PathsFrom(b, 0)))
    ensures e.path in PathsFrom(b, 0)
  {
    var kept := Dedup({}, PathsFrom(b, 0));
    DedupDistinct({}, PathsFrom(b, 0));
    var j :| 0 <= j < |Tag(title, kept)| && Tag(title, kept)[j] == e;
    assert e.path == kept[j];
  }

  /** The entries of one block: `.md` paths under the block's own title. */
  lemma BlockShape(title: string, b: string)
    ensures forall e :: e in Tag(title, Dedup({}, PathsFrom(b, 0))) ==> EndsWith(e.path, ".md") && e.section == title
  {
    var ps := PathsFrom(b, 0);
    var kept := Dedup({}, ps);
    PathsEndWithMd(b, 0);
    DedupDistinct({}, ps);
    KeptEndWithMd(ps, kept);
    TagShape(title, kept);
  }

  lemma KeptEndWithMd(ps: seq<string>, kept: seq<string>)
    requires forall k :: 0 <= k < |ps| ==> EndsWith(ps[k], ".md")
    requires forall x :: x in kept ==> x in ps
    ensures forall x :: x in kept ==> EndsWith(x, ".md")
  {
    forall x | x in kept ensures EndsWith(x, ".md") {
      var i :| 0 <= i < |ps| && ps[i] == x;
    }
  }

  lemma TagShape(title: string, kept: seq<string>)
    requires forall x :: x in kept ==> EndsWith(x, ".md")
    ensures forall e :: e in Tag(title, kept) ==> EndsWith(e.path, ".md") && e.section == title
  {
    var tagged := Tag(title, kept);
    forall e | e in tagged ensures EndsWith(e.path, ".md") && e.section == title {
      var j :| 0 <= j < |tagged| && tagged[j] == e;
      assert e.path == kept[j] && e.path in kept;
    }
  }

  /**
   * Every entry of the list: a path ending in `.md`, linked from the block of
   * a `###` heading of the text, under that heading's title; the block runs
   * from the heading to the next one, so the title is the nearest heading at
   * or before the link.
   */
  lemma DocListShape(raw: Value)
    ensures forall e :: e in DocList(raw) ==>
      && raw.Str? && EndsWith(e.path, ".md")
      && var hs := HeadingsFrom(raw.s, 0);
         Ordered(raw.s, hs)
         && exists k :: 0 <= k < |hs| && e.section == hs[k].title && e.path in PathsFrom(Block(raw.s, hs, k), 0)
  {
    if raw.Str? && raw.s != [] {
      var hs := HeadingsFrom(raw.s, 0);
      assert DocList(raw) == EntriesUpTo(raw.s, hs, |hs|);
      forall e | e in DocList(raw)
        ensures EndsWith(e.path, ".md") && Ordered(raw.s, hs)
        ensures exists k :: 0 <= k < |hs| && e.section == hs[k].title && e.path in PathsFrom(Block(raw.s, hs, k), 0)
      {
        EntryPlaced(raw.s, hs, e);
      }
    }
  }

  /** A text with no `###` heading lists nothing, whatever it links to; so does anything but a non-empty string. */
  lemma NoHeadingNoDocs(raw: Value)
    requires !raw.Str? || raw.s == [] || HeadingsFrom(raw.s, 0) == []
    ensures DocList(raw) == []
  {
  }

  /**
   * Within the block of one heading the paths are distinct, and every link
   * target of the block, with its `./` removed, is among them.
   */
  lemma BlockPaths(t: string, hs: seq<Heading>, k: nat)
    requires Ordered(t, hs) && k < |hs|
    ensures NoDuplicates(Dedup({}, PathsFrom(Block(t, hs, k), 0)))
    ensures forall p :: p in PathsFrom(Block(t, hs, k), 0) <==> p in Dedup({}, PathsFrom(Block(t, hs, k), 0))
  {
    var ps := PathsFrom(Block(t, hs, k), 0);
    DedupDistinct({}, ps);
    PathsEndWithMd(Block(t, hs, k), 0);
    forall p | p in ps ensures p in Dedup({}, ps) {
      var i :| 0 <= i < |ps| && ps[i] == p;
      DedupComplete({}, ps, p);
    }
  }
}
