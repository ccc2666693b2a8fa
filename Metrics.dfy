/**
 * The summary counters of the dashboard: `parsePrdMetrics` reads the totals
 * row of the functional and of the non-functional requirement tables of the
 * PRD, `parseEpicsMetrics` the `totalEpics:` / `totalStories:` tokens of the
 * epics document. Whatever is not found, or reads as 0, keeps its default.
 */
module Metrics {

  import opened Options
  import opened Text
  import opened Patterns
  import opened JsValue

  datatype PrdMetrics = PrdMetrics(rfImpl: nat, rfPlan: nat, rnfImpl: nat, rnfPlan: nat)

  datatype EpicsMetrics = EpicsMetrics(epics: nat, stories: nat)

  /** DEFAULT_METRICS, also the starting values inside parsePrdMetrics. */
  const DefaultPrd := PrdMetrics(50, 36, 25, 2)

  const DefaultEpics := EpicsMetrics(14, 64)

  /** `\s*\|\s*\*\*(\d+)\*\*`: one cell of a totals row. */
  const Cell: seq<Token> := [Spaces, Lit("|"), Spaces, Lit("**"), Digits, Lit("**")]

  /** `\*\*Total RFs\*\*\s*\|\s*\*\*(\d+)\*\*\s*\|\s*\*\*(\d+)\*\*\s*\|\s*\*\*(\d+)\*\*` */
  const RfRow: seq<Token> := [Lit("**Total RFs**")] + Cell + Cell + Cell

  /** `\*\*Total RNFs\*\*\s*\|\s*\*\*(\d+)\*\*\s*\|\s*\*\*(\d+)\*\*` */
  const RnfRow: seq<Token> := [Lit("**Total RNFs**")] + Cell + Cell

  /** `<head>\s*(\d+)` */
  function Counter(head: string): seq<Token> {
    [Lit(head), Spaces, Digits]
  }

  const EpicsHead := "totalEpics:"

  const StoriesHead := "totalStories:"

  /** `totalEpics:\s*(\d+)` */
  const TotalEpics: seq<Token> := Counter(EpicsHead)

  /** `totalStories:\s*(\d+)` */
  const TotalStories: seq<Token> := Counter(StoriesHead)

  /** `parseInt(cap, 10) || d` for a captured numeral. */
  function NumberOr(cap: string, d: nat): (n: nat)
    requires AllDigits(cap)
    ensures DigitsValue(cap) != 0 ==> n == DigitsValue(cap)
    ensures DigitsValue(cap) == 0 ==> n == d
  {
    var v := DigitsValue(cap);
    if v != 0 then v else d
  }

  lemma CellCount()
    ensures DigitsCount(Cell) == 1 && SpacesCount(Cell) == 2
  {
    assert Cell[1..][1..][1..][1..] == [Digits, Lit("**")];
    assert DigitsCount([Lit("**")]) == 0 && SpacesCount([Lit("**")]) == 0;
  }

  lemma CountsOfRows()
    ensures DigitsCount(RfRow) == 3 && DigitsCount(RnfRow) == 2
    ensures DigitsCount(TotalEpics) == 1 && DigitsCount(TotalStories) == 1
  {
    CellCount();
    DigitsCountAppend([Lit("**Total RFs**")], Cell);
    DigitsCountAppend([Lit("**Total RFs**")] + Cell, Cell);
    DigitsCountAppend([Lit("**Total RFs**")] + Cell + Cell, Cell);
    DigitsCountAppend([Lit("**Total RNFs**")], Cell);
    DigitsCountAppend([Lit("**Total RNFs**")] + Cell, Cell);
    assert DigitsCount([Lit("**Total RFs**")]) == 0 && DigitsCount([Lit("**Total RNFs**")]) == 0;
    CounterCount(EpicsHead);
    CounterCount(StoriesHead);
  }

  lemma CounterCount(head: string)
    ensures DigitsCount(Counter(head)) == 1 && SpacesCount(Counter(head)) == 1
  {
    var pat := Counter(head);
    assert pat[1..][1..] == [Digits] && [Digits][1..] == [];
    assert DigitsCount([Digits]) == 1 && SpacesCount([Digits]) == 0;
    assert DigitsCount(pat[1..]) == 1 && SpacesCount(pat[1..]) == 1;
  }

  /** The two numbers of the first RF totals row, or the defaults. */
  function RfTotals(t: string): (r: (nat, nat))
    ensures r.0 > 0 && r.1 > 0
    ensures FirstMatch(t, RfRow).None? ==> r == (50, 36)
  {
    CountsOfRows();
    match FirstMatch(t, RfRow)
    case None => (50, 36)
    case Some(caps) => (NumberOr(caps[0], 50), NumberOr(caps[1], 36))
  }

  /** The two numbers of the first RNF totals row, or the defaults. */
  function RnfTotals(t: string): (r: (nat, nat))
    ensures r.0 > 0 && r.1 > 0
    ensures FirstMatch(t, RnfRow).None? ==> r == (25, 2)
  {
    CountsOfRows();
    match FirstMatch(t, RnfRow)
    case None => (25, 2)
    case Some(caps) => (NumberOr(caps[0], 25), NumberOr(caps[1], 2))
  }

  /** The number after the first occurrence of `<head>\s*(\d+)`, or the default. */
  function TokenCount(t: string, head: string, d: nat): (n: nat)
    ensures d > 0 ==> n > 0
    ensures FirstMatch(t, Counter(head)).None? ==> n == d
  {
    CounterCount(head);
    match FirstMatch(t, Counter(head))
    case None => d
    case Some(caps) => NumberOr(caps[0], d)
  }

  /** `parsePrdMetrics(text)`: every counter is positive; anything but a non-empty string gives the defaults. */
  function ParsePrdMetrics(text: Value): (m: PrdMetrics)
    ensures m.rfImpl > 0 && m.rfPlan > 0 && m.rnfImpl > 0 && m.rnfPlan > 0
    ensures NonEmptyText(text).None? ==> m == DefaultPrd
    ensures NonEmptyText(text).Some? && FirstMatch(text.s, RfRow).None? ==> m.rfImpl == 50 && m.rfPlan == 36
    ensures NonEmptyText(text).Some? && FirstMatch(text.s, RnfRow).None? ==> m.rnfImpl == 25 && m.rnfPlan == 2
  {
    match NonEmptyText(text)
    case None => DefaultPrd
    case Some(t) =>
      var (rfImpl, rfPlan) := RfTotals(t);
      var (rnfImpl, rnfPlan) := RnfTotals(t);
      PrdMetrics(rfImpl, rfPlan, rnfImpl, rnfPlan)
  }

  /** `parseEpicsMetrics(text)`: both counters positive; anything but a non-empty string gives 14 / 64. */
  function ParseEpicsMetrics(text: Value): (m: EpicsMetrics)
    ensures m.epics > 0 && m.stories > 0
    ensures NonEmptyText(text).None? ==> m == DefaultEpics
    ensures NonEmptyText(text).Some? && FirstMatch(text.s, TotalEpics).None? ==> m.epics == 14
    ensures NonEmptyText(text).Some? && FirstMatch(text.s, TotalStories).None? ==> m.stories == 64
  {
    match NonEmptyText(text)
    case None => DefaultEpics
    case Some(t) => EpicsMetrics(TokenCount(t, EpicsHead, 14), TokenCount(t, StoriesHead, 64))
  }

  // ---------------------------------------------------------------------------
  // Where the numbers come from
  // ---------------------------------------------------------------------------

  lemma RowsSeparated()
    ensures Separated(RfRow) && Separated(RnfRow)
  {
    forall i | 0 <= i < |RfRow| ensures SeparatedAt(RfRow, i) {
    }
    forall i | 0 <= i < |RnfRow| ensures SeparatedAt(RnfRow, i) {
    }
  }

  /** One cell as a PRD writes it: `u|v**n**`, with the blank runs u and v around the bar. */
  function CellText(u: string, v: string, n: string): string {
    u + "|" + v + "**" + n + "**"
  }

  lemma CellRendered(u: string, v: string, n: string)
    ensures DigitsCount(Cell) == 1 && SpacesCount(Cell) == 2 && Render(Cell, [n], [u, v]) == CellText(u, v, n)
  {
    CellCount();
    assert Cell[1..][1..][1..][1..][1..][1..] == [];
    assert [n][1..] == [] && [u, v][1..] == [v] && [v][1..] == [];
    ConcatAssoc(u, "|", v + ("**" + (n + "**")));
    ConcatAssoc(u + "|", v, "**" + (n + "**"));
    ConcatAssoc(u + "|" + v, "**", n + "**");
    ConcatAssoc(u + "|" + v + "**", n, "**");
  }

  /**
   * The RF totals row as a PRD writes it, `**Total RFs**` and three cells, with
   * ws the six blank runs around the bars.
   */
  function RfRowText(ws: seq<string>, a: string, b: string, c: string): string
    requires |ws| == 6
  {
    "**Total RFs**" + CellText(ws[0], ws[1], a) + CellText(ws[2], ws[3], b) + CellText(ws[4], ws[5], c)
  }

  /** The RNF totals row, `**Total RNFs**` and two cells, with ws the four blank runs around the bars. */
  function RnfRowText(ws: seq<string>, a: string, b: string): string
    requires |ws| == 4
  {
    "**Total RNFs**" + CellText(ws[0], ws[1], a) + CellText(ws[2], ws[3], b)
  }

  /** A cell appended to any pattern renders after that pattern's text. */
  lemma CellAppended(p: seq<Token>, caps: seq<string>, ws: seq<string>, u: string, v: string, n: string)
    requires DigitsCount(p) == |caps| && SpacesCount(p) == |ws|
    ensures DigitsCount(p + Cell) == |caps| + 1 && SpacesCount(p + Cell) == |ws| + 2
    ensures Render(p + Cell, caps + [n], ws + [u, v]) == Render(p, caps, ws) + CellText(u, v, n)
  {
    CellRendered(u, v, n);
    RenderAppend(p, caps, ws, Cell, [n], [u, v]);
  }

  /** A head literal with no capture renders as itself. */
  lemma HeadRendered(h: string)
    ensures DigitsCount([Lit(h)]) == 0 && SpacesCount([Lit(h)]) == 0 && Render([Lit(h)], [], []) == h
  {
    assert [Lit(h)][1..] == [];
  }

  /** Four and six elements, as the pairs a row's cells take. */
  lemma Pairs<T>(s: seq<T>)
    requires |s| == 4 || |s| == 6
    ensures [] + [s[0], s[1]] == [s[0], s[1]] && [s[0], s[1]] + [s[2], s[3]] == s[..4]
    ensures |s| == 4 ==> s[..4] == s
    ensures |s| == 6 ==> s[..4] + [s[4], s[5]] == s
  {
  }

  lemma Captures<T>(a: T, b: T, c: T)
    ensures [] + [a] == [a] && [a] + [b] == [a, b] && [a, b] + [c] == [a, b, c]
  {
  }

  lemma RfRowRendered(ws: seq<string>, a: string, b: string, c: string)
    requires |ws| == 6
    ensures DigitsCount(RfRow) == 3 && SpacesCount(RfRow) == 6 && Render(RfRow, [a, b, c], ws) == RfRowText(ws, a, b, c)
  {
    var h := "**Total RFs**";
    var p0 := [Lit(h)];
    Pairs(ws);
    Captures(a, b, c);
    HeadRendered(h);
    CellAppended(p0, [], [], ws[0], ws[1], a);
    CellAppended(p0 + Cell, [a], [ws[0], ws[1]], ws[2], ws[3], b);
    CellAppended(p0 + Cell + Cell, [a, b], ws[..4], ws[4], ws[5], c);
  }

  lemma RnfRowRendered(ws: seq<string>, a: string, b: string)
    requires |ws| == 4
    ensures DigitsCount(RnfRow) == 2 && SpacesCount(RnfRow) == 4 && Render(RnfRow, [a, b], ws) == RnfRowText(ws, a, b)
  {
    var h := "**Total RNFs**";
    var p0 := [Lit(h)];
    Pairs(ws);
    Captures(a, b, b);
    HeadRendered(h);
    CellAppended(p0, [], [], ws[0], ws[1], a);
    CellAppended(p0 + Cell, [a], [ws[0], ws[1]], ws[2], ws[3], b);
  }

  /**
   * The RF counters are the first two numbers of the first RF totals row,
   * however its cells are spaced; the third number is required by the pattern
   * but not used, and a 0 keeps the default.
   */
  lemma RfCountersFromFirstRow(pre: string, ws: seq<string>, a: string, b: string, c: string, post: string)
    requires |ws| == 6 && Blanks(ws)
    requires IsDigits(a) && IsDigits(b) && IsDigits(c)
    requires forall q :: 0 <= q < |pre| ==> MatchAt(pre + RfRowText(ws, a, b, c) + post, q, RfRow).None?
    ensures var m := ParsePrdMetrics(Str(pre + RfRowText(ws, a, b, c) + post));
      m.rfImpl == NumberOr(a, 50) && m.rfPlan == NumberOr(b, 36)
  {
    RfRowRendered(ws, a, b, c);
    RowsSeparated();
    FirstMatchRender(pre, RfRow, [a, b, c], ws, post);
  }

  /** The RNF counters are the two numbers of the first RNF totals row, however spaced (a 0 keeps the default). */
  lemma RnfCountersFromFirstRow(pre: string, ws: seq<string>, a: string, b: string, post: string)
    requires |ws| == 4 && Blanks(ws)
    requires IsDigits(a) && IsDigits(b)
    requires forall q :: 0 <= q < |pre| ==> MatchAt(pre + RnfRowText(ws, a, b) + post, q, RnfRow).None?
    ensures var m := ParsePrdMetrics(Str(pre + RnfRowText(ws, a, b) + post));
      m.rnfImpl == NumberOr(a, 25) && m.rnfPlan == NumberOr(b, 2)
  {
    RnfRowRendered(ws, a, b);
    RowsSeparated();
    FirstMatchRender(pre, RnfRow, [a, b], ws, post);
  }

  /** A PRD in which no RF totals row occurs, however spaced, keeps 50 / 36. */
  lemma RfRowAbsent(t: string)
    requires t != []
    requires forall p, caps, ws, post :: !RenderedAt(t, p, RfRow, caps, ws, post)
    ensures ParsePrdMetrics(Str(t)).rfImpl == 50 && ParsePrdMetrics(Str(t)).rfPlan == 36
  {
    RowsSeparated();
    FirstMatchNone(t, RfRow);
  }

  /** A PRD in which no RNF totals row occurs, however spaced, keeps 25 / 2. */
  lemma RnfRowAbsent(t: string)
    requires t != []
    requires forall p, caps, ws, post :: !RenderedAt(t, p, RnfRow, caps, ws, post)
    ensures ParsePrdMetrics(Str(t)).rnfImpl == 25 && ParsePrdMetrics(Str(t)).rnfPlan == 2
  {
    RowsSeparated();
    FirstMatchNone(t, RnfRow);
  }

  lemma CounterRendered(head: string, w: string, n: string)
    requires head != [] && !IsSpace(head[0])
    ensures Separated(Counter(head)) && DigitsCount(Counter(head)) == 1 && SpacesCount(Counter(head)) == 1
    ensures Render(Counter(head), [n], [w]) == head + w + n
  {
    var pat := Counter(head);
    CounterCount(head);
    assert pat[1..][1..] == [Digits] && [Digits][1..] == [];
    assert [w][1..] == [] && [n][1..] == [];
    assert Render([Digits], [n], []) == n + Render([], [], []);
    ConcatAssoc(head, w, n);
    forall i | 0 <= i < |pat| ensures SeparatedAt(pat, i) {
    }
  }

  /** `<head>`, blanks, then n, read from the first place where the counter pattern matches. */
  lemma CounterFromFirstToken(pre: string, head: string, w: string, n: string, post: string, d: nat)
    requires head != [] && !IsSpace(head[0])
    requires AllSpace(w) && IsDigits(n) && (post == [] || !IsDigit(post[0]))
    requires forall q :: 0 <= q < |pre| ==> MatchAt(pre + head + w + n + post, q, Counter(head)).None?
    ensures TokenCount(pre + head + w + n + post, head, d) == NumberOr(n, d)
  {
    var t := pre + head + w + n + post;
    CounterText(pre, head, w, n, post);
    assert Blanks([w]);
    FirstMatchRenderIn(t, pre, Counter(head), [n], [w], post);
  }

  /** The counter text around a prefix and a suffix, as the rendering of the counter pattern. */
  lemma CounterText(pre: string, head: string, w: string, n: string, post: string)
    requires head != [] && !IsSpace(head[0])
    ensures Separated(Counter(head)) && DigitsCount(Counter(head)) == 1 && SpacesCount(Counter(head)) == 1
    ensures pre + head + w + n + post == pre + Render(Counter(head), [n], [w]) + post
  {
    CounterRendered(head, w, n);
    ConcatAssoc(pre + head, w, n);
    ConcatAssoc(pre, head, w + n);
    ConcatAssoc(head, w, n);
  }

  /** No `<head>`, blanks, numeral anywhere: the counter keeps its default. */
  lemma CounterAbsent(t: string, head: string, d: nat)
    requires head != [] && !IsSpace(head[0])
    requires forall p, caps, ws, post :: !RenderedAt(t, p, Counter(head), caps, ws, post)
    ensures TokenCount(t, head, d) == d
  {
    CounterRendered(head, [], []);
    FirstMatchNone(t, Counter(head));
  }

  lemma HeadsPlain()
    ensures EpicsHead != [] && !IsSpace(EpicsHead[0])
    ensures StoriesHead != [] && !IsSpace(StoriesHead[0])
  {
  }

  lemma EpicsMetricsOfText(t: string)
    requires t != []
    ensures ParseEpicsMetrics(Str(t)) == EpicsMetrics(TokenCount(t, EpicsHead, 14), TokenCount(t, StoriesHead, 64))
  {
  }

  /** `totalEpics:`, blanks, n sets the epic counter from its first occurrence (0 keeps 14). */
  lemma EpicsCounterFromToken(pre: string, w: string, n: string, post: string)
    requires AllSpace(w) && IsDigits(n) && (post == [] || !IsDigit(post[0]))
    requires forall q :: 0 <= q < |pre| ==> MatchAt(pre + EpicsHead + w + n + post, q, TotalEpics).None?
    ensures ParseEpicsMetrics(Str(pre + EpicsHead + w + n + post)).epics == NumberOr(n, 14)
  {
    var t := pre + EpicsHead + w + n + post;
    HeadsPlain();
    assert |t| >= |EpicsHead| > 0;
    EpicsMetricsOfText(t);
    CounterFromFirstToken(pre, EpicsHead, w, n, post, 14);
  }

  /** `totalStories:`, blanks, n sets the story counter from its first occurrence (0 keeps 64). */
  lemma StoriesCounterFromToken(pre: string, w: string, n: string, post: string)
    requires AllSpace(w) && IsDigits(n) && (post == [] || !IsDigit(post[0]))
    requires forall q :: 0 <= q < |pre| ==> MatchAt(pre + StoriesHead + w + n + post, q, TotalStories).None?
    ensures ParseEpicsMetrics(Str(pre + StoriesHead + w + n + post)).stories == NumberOr(n, 64)
  {
    var t := pre + StoriesHead + w + n + post;
    HeadsPlain();
    assert |t| >= |StoriesHead| > 0;
    EpicsMetricsOfText(t);
    CounterFromFirstToken(pre, StoriesHead, w, n, post, 64);
  }

  /** An epics document with no `totalEpics:` token, however spaced, keeps 14; likewise 64 for `totalStories:`. */
  lemma EpicsTokensAbsent(t: string)
    requires t != []
    ensures (forall p, caps, ws, post :: !RenderedAt(t, p, TotalEpics, caps, ws, post)) ==> ParseEpicsMetrics(Str(t)).epics == 14
    ensures (forall p, caps, ws, post :: !RenderedAt(t, p, TotalStories, caps, ws, post)) ==> ParseEpicsMetrics(Str(t)).stories == 64
  {
    HeadsPlain();
    EpicsMetricsOfText(t);
    if forall p, caps, ws, post :: !RenderedAt(t, p, TotalEpics, caps, ws, post) {
      CounterAbsent(t, EpicsHead, 14);
    }
    if forall p, caps, ws, post :: !RenderedAt(t, p, TotalStories, caps, ws, post) {
      CounterAbsent(t, StoriesHead, 64);
    }
  }
}
