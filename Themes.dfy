/**
 * Themes are read from the comments of the roadmap YAML text: a
 * `# TEMA: name` comment opens a theme, and every `  - id: X` line after it
 * adds capability X to that theme. The capability numbering of the listing
 * views counts the capability ids theme by theme.
 */
module Themes {

  import opened Options
  import opened Text
  import opened Patterns

  datatype Theme = Theme(name: string, capabilityIds: seq<string>)

  // ---------------------------------------------------------------------------
  // The two line patterns
  // ---------------------------------------------------------------------------

  /** The characters of the emoji class of the theme-name cleaning. */
  predicate IsThemeEmoji(c: char) {
    c in {'\U{1F3E5}', '\U{1F4B0}', '\U{1F916}', '\U{1F680}', '\U{1F465}', '\U{1F4CA}',
          '\U{1F50C}', '\U{2699}', '\U{FE0F}', '\U{1F4DC}', '\U{1F52C}'}
  }

  /** `replace(/[…]/g, '')` */
  function StripEmoji(s: string): string
    decreases |s|
  {
    if s == [] then []
    else (if IsThemeEmoji(s[0]) then [] else [s[0]]) + StripEmoji(s[1..])
  }

  /** Every character of the class is removed, every other one kept as often as it occurs. */
  lemma {:induction false} StripEmojiCounts(s: string)
    ensures forall c :: multiset(StripEmoji(s))[c] == if IsThemeEmoji(c) then 0 else multiset(s)[c]
    decreases |s|
  {
    if s != [] {
      StripEmojiCounts(s[1..]);
      var h: string := if IsThemeEmoji(s[0]) then [] else [s[0]];
      assert s == [s[0]] + s[1..];
      assert multiset(StripEmoji(s)) == multiset(h) + multiset(StripEmoji(s[1..]));
      assert multiset(s) == multiset([s[0]]) + multiset(s[1..]);
    }
  }

  /** The characters that stay keep their order: stripping works piece by piece. */
  lemma {:induction false} StripEmojiAppend(a: string, b: string)
    ensures StripEmoji(a + b) == StripEmoji(a) + StripEmoji(b)
    decreases |a|
  {
    if a == [] {
      assert a + b == b;
    } else {
      assert (a + b)[1..] == a[1..] + b;
      StripEmojiAppend(a[1..], b);
    }
  }

  /** The theme name of the captured text: emoji removed, whitespace runs collapsed to one blank, trimmed. */
  function CleanName(cap: string): string {
    Trim(CollapseSpaces(StripEmoji(cap)))
  }

  /**
   * A theme name is trimmed; its non-blank characters are those of the
   * capture without the emoji, in order; its blanks are single spaces
   * between words.
   */
  lemma CleanNameShape(cap: string)
    ensures var name := CleanName(cap);
      && IsTrimmed(name)
      && NonSpaces(name) == NonSpaces(StripEmoji(cap))
      && (forall i :: 0 <= i < |name| && IsSpace(name[i]) ==> name[i] == ' ')
      && (forall i :: 0 <= i < |name| - 1 ==> !(IsSpace(name[i]) && IsSpace(name[i + 1])))
  {
    CleanNameChars(cap);
    CleanNameBlanks(CollapseSpaces(StripEmoji(cap)));
  }

  lemma CleanNameChars(cap: string)
    ensures NonSpaces(CleanName(cap)) == NonSpaces(StripEmoji(cap))
  {
    CollapseSpacesContent(StripEmoji(cap));
    TrimNonSpaces(CollapseSpaces(StripEmoji(cap)));
  }

  /** Trimming a text whose blanks are single spaces keeps them single spaces. */
  lemma CleanNameBlanks(c: string)
    requires forall i :: 0 <= i < |c| && IsSpace(c[i]) ==> c[i] == ' '
    requires forall i :: 0 <= i < |c| - 1 ==> !(IsSpace(c[i]) && IsSpace(c[i + 1]))
    ensures var name := Trim(c);
      && (forall i :: 0 <= i < |name| && IsSpace(name[i]) ==> name[i] == ' ')
      && (forall i :: 0 <= i < |name| - 1 ==> !(IsSpace(name[i]) && IsSpace(name[i + 1])))
  {
    var name := Trim(c);
    var a := LeadingSpaces(c);
    assert forall i :: 0 <= i < |name| ==> name[i] == c[a + i];
  }

  /** `line.match(/^\s*#\s*TEMA:\s*(.+)$/)`, giving the cleaned theme name. */
  function TemaLine(line: string): Option<string> {
    match TemaTail(line)
    case None => None
    case Some(tail) =>
      match SpacedRest(tail, 0)
      case None => None
      case Some(cap) => Some(CleanName(cap))
  }

  /** The text after `^\s*#\s*TEMA:`, when the line starts that way. */
  function TemaTail(line: string): Option<string> {
    var a := LeadingSpaces(line);
    if a < |line| && line[a] == '#' then
      var r := line[a + 1..];
      var b := LeadingSpaces(r);
      if StartsWith(r[b..], "TEMA:") then Some(r[b..][5..]) else None
    else None
  }

  /** line is blanks w, `#`, blanks w', `TEMA:` and a one-line tail whose cleaned capture is name. */
  predicate TemaShaped(line: string, w: string, w': string, tail: string, name: string) {
    && AllSpace(w) && AllSpace(w') && line == w + "#" + w' + "TEMA:" + tail
    && SpacedRest(tail, 0).Some? && name == CleanName(SpacedRest(tail, 0).value)
  }

  /**
   * A theme comment is blanks, `#`, blanks, `TEMA:` and a one-line tail; the
   * theme name is the cleaned capture of `\s*(.+)$` on the tail.
   */
  lemma TemaLineMatch(line: string)
    ensures TemaLine(line).Some? ==> exists w, w', tail :: TemaShaped(line, w, w', tail, TemaLine(line).value)
  {
    if TemaLine(line).Some? {
      var tail := TemaTail(line).value;
      var w, w' := TemaTailParts(line);
      assert TemaShaped(line, w, w', tail, TemaLine(line).value);
    }
  }

  /** Conversely, every line of that shape is a theme comment naming name. */
  lemma TemaShapedLine(line: string, w: string, w': string, tail: string, name: string)
    requires TemaShaped(line, w, w', tail, name)
    ensures TemaLine(line) == Some(name)
  {
    TemaTailOf(w, w', tail);
  }

  lemma TemaTailOf(w: string, w': string, tail: string)
    requires AllSpace(w) && AllSpace(w')
    ensures TemaTail(w + "#" + w' + "TEMA:" + tail) == Some(tail)
  {
    var k := "TEMA:" + tail;
    var r := w' + k;
    Assoc5(w, "#", w', "TEMA:", tail);
    MarkAfterBlanks(w, '#', r);
    assert k[0] == 'T';
    BlanksBefore(w', k);
    TemaTailFrom(w + ("#" + r), |w|, r, |w'|, tail);
  }

  /** Blanks, then the non-blank c: the leading blanks stop at c. */
  lemma MarkAfterBlanks(w: string, c: char, r: string)
    requires AllSpace(w) && !IsSpace(c)
    ensures var s := w + ([c] + r); LeadingSpaces(s) == |w| < |s| && s[|w|] == c && s[|w| + 1..] == r
  {
    LeadingSpacesAfterSpaces(w, [c] + r);
  }

  /** Blanks, then a text starting with a non-blank: the leading blanks are exactly w. */
  lemma BlanksBefore(w: string, k: string)
    requires AllSpace(w) && k != [] && !IsSpace(k[0])
    ensures LeadingSpaces(w + k) == |w| && (w + k)[|w|..] == k
  {
    LeadingSpacesAfterSpaces(w, k);
  }

  lemma TemaTailFrom(line: string, a: nat, r: string, b: nat, tail: string)
    requires LeadingSpaces(line) == a < |line| && line[a] == '#' && line[a + 1..] == r
    requires LeadingSpaces(r) == b && r[b..] == "TEMA:" + tail
    ensures TemaTail(line) == Some(tail)
  {
    assert (r[b..])[..5] == "TEMA:" && (r[b..])[5..] == tail;
  }

  /** The blanks before and after the `#` of a theme comment. */
  lemma TemaTailParts(line: string) returns (w: string, w': string)
    requires TemaTail(line).Some?
    ensures AllSpace(w) && AllSpace(w') && line == w + "#" + w' + "TEMA:" + TemaTail(line).value
  {
    var a := LeadingSpaces(line);
    var b := LeadingSpaces(line[a + 1..]);
    TemaShape(line, a, b);
    w, w' := line[..a], line[a + 1..][..b];
  }

  lemma TemaShape(line: string, a: nat, b: nat)
    requires a < |line| && line[a] == '#' && b <= |line[a + 1..]| && StartsWith(line[a + 1..][b..], "TEMA:")
    ensures line == line[..a] + "#" + line[a + 1..][..b] + "TEMA:" + line[a + 1..][b..][5..]
  {
    var r := line[a + 1..];
    var t := r[b..];
    CutFive(line, a, r, b, t);
    assert [line[a]] == "#";
    assert t[..5] == "TEMA:";
  }

  lemma CutFive(line: string, a: nat, r: string, b: nat, t: string)
    requires a < |line| && r == line[a + 1..] && b <= |r| && t == r[b..] && |t| >= 5
    ensures line == line[..a] + [line[a]] + r[..b] + t[..5] + t[5..]
  {
    var p, h := line[..a], [line[a]];
    assert line[a..] == h + r;
    assert line == p + line[a..];
    assert r == r[..b] + t;
    assert t == t[..5] + t[5..];
    Assoc5(p, h, r[..b], t[..5], t[5..]);
  }

  lemma Assoc5(p: string, h: string, x: string, y: string, z: string)
    ensures p + (h + (x + (y + z))) == p + h + x + y + z
  {
  }

  /** A theme comment written out gives back the cleaned name. */
  lemma TemaLineOf(name: string)
    requires name != [] && !IsSpace(name[0]) && NoLineTerminator(name)
    ensures TemaLine("# TEMA: " + name) == Some(CleanName(name))
  {
    var k := "TEMA:" + (" " + name);
    var r := " " + k;
    var line := "# TEMA: " + name;
    assert "# TEMA: " == "#" + " " + "TEMA:" + " ";
    Assoc5("#", " ", "TEMA:", " ", name);
    assert line == "#" + r;
    assert line[0] == '#' && line[1..] == r;
    assert k[0] == 'T';
    LeadingSpacesAfterSpaces(" ", k);
    assert r[1..] == k;
    SpacedRestOneBlank(name);
    TemaLineParts(line, 1, " " + name, name);
  }

  lemma TemaLineParts(line: string, b: nat, tail: string, cap: string)
    requires line != [] && line[0] == '#' && b <= |line[1..]| && LeadingSpaces(line[1..]) == b
    requires line[1..][b..] == "TEMA:" + tail && SpacedRest(tail, 0) == Some(cap)
    ensures TemaLine(line) == Some(CleanName(cap))
  {
    TemaTailAt(line, b, tail);
  }

  lemma TemaTailAt(line: string, b: nat, tail: string)
    requires line != [] && line[0] == '#' && b <= |line[1..]| && LeadingSpaces(line[1..]) == b
    requires line[1..][b..] == "TEMA:" + tail
    ensures TemaTail(line) == Some(tail)
  {
    assert LeadingSpaces(line) == 0;
    assert line[1..][b..][5..] == tail;
  }

  /** `\s*(.+)$` on one blank and a one-line text captures that text. */
  lemma SpacedRestOneBlank(x: string)
    requires x != [] && !IsSpace(x[0]) && NoLineTerminator(x)
    ensures SpacedRest(" " + x, 0) == Some(x)
  {
    var r := " " + x;
    assert r[..1] == " " && r[1..] == x;
    assert AllSpace(r[..1]) && NoLineTerminator(r[1..]);
    var cap := SpacedRest(r, 0).value;
  }

  predicate NoSpace(s: string) {
    forall i :: 0 <= i < |s| ==> !IsSpace(s[i])
  }

  const IdHead := "  - id:"

  /** `line.match(/^  - id:\s*(\S+)$/)`: exactly two blanks of indent, then the id to the end of the line. */
  function IdLine(line: string): (id: Option<string>)
    ensures id.Some? ==> (id.value != [] && NoSpace(id.value) && StartsWith(line, IdHead)
      && 7 + |id.value| <= |line| && AllSpace(line[7..|line| - |id.value|]) && line[|line| - |id.value|..] == id.value)
  {
    if StartsWith(line, IdHead) then
      var r := line[7..];
      var w := LeadingSpaces(r);
      var id := r[w..];
      if id != [] && NoSpace(id) then
        assert line[|line| - |id|..] == id;
        assert line[7..|line| - |id|] == r[..w];
        Some(id)
      else None
    else None
  }

  /** An id line written out reads back as its id. */
  lemma IdLineOf(id: string)
    requires id != [] && NoSpace(id)
    ensures IdLine(IdHead + " " + id) == Some(id)
  {
    var line := IdHead + " " + id;
    assert line[..7] == IdHead;
    var r := line[7..];
    assert r == " " + id;
    assert !IsSpace(id[0]);
    LeadingSpacesAfterSpaces(" ", id);
    assert r[1..] == id;
  }

  /** Conversely, `  - id:`, any blanks and a blank-free id read back as that id. */
  lemma IdShapedLine(w: string, id: string)
    requires AllSpace(w) && id != [] && NoSpace(id)
    ensures IdLine(IdHead + w + id) == Some(id)
  {
    var line := IdHead + w + id;
    assert line[..7] == IdHead;
    assert line[7..] == w + id;
    assert !IsSpace(id[0]);
    LeadingSpacesAfterSpaces(w, id);
    assert (w + id)[|w|..] == id;
  }

  /** An id line's indent is blank, blank, dash, so it is never a theme comment. */
  lemma IdHeadNotTema(line: string)
    requires StartsWith(line, IdHead)
    ensures TemaLine(line).None?
  {
    assert line[..7] == IdHead;
    assert line[0] == ' ' && line[1] == ' ' && line[2] == '-';
    DashIndentNotTema(line);
  }

  /** Two blanks and a dash: the first non-blank is not `#`. */
  lemma DashIndentNotTema(line: string)
    requires |line| > 2 && line[0] == ' ' && line[1] == ' ' && line[2] == '-'
    ensures TemaLine(line).None?
  {
    var w := line[..2];
    var rest := line[2..];
    assert AllSpace(w) && line == w + rest && !IsSpace(rest[0]);
    LeadingSpacesAfterSpaces(w, rest);
  }

  /** A line is never both a theme comment and an id line. */
  lemma TemaOrId(line: string)
    ensures IdLine(line).Some? ==> TemaLine(line).None?
  {
    if IdLine(line).Some? {
      IdHeadNotTema(line);
    }
  }

  // ---------------------------------------------------------------------------
  // The scan: the theme in effect and the (theme, id) assignments
  // ---------------------------------------------------------------------------

  /** What one line says to the scan: the theme it opens, the id it names. */
  datatype LineTags = LineTags(tema: Option<string>, id: Option<string>)

  function TagsOf(line: string): LineTags {
    LineTags(TemaLine(line), IdLine(line))
  }

  function Tags(lines: seq<string>): (ts: seq<LineTags>)
    ensures |ts| == |lines|
  {
    seq(|lines|, i requires 0 <= i < |lines| => TagsOf(lines[i]))
  }

  /** The theme in effect after the lines; "" when there is none (`null` and `''` are both falsy). */
  function Current(ts: seq<LineTags>): string {
    if ts == [] then ""
    else
      match ts[|ts| - 1].tema
      case Some(name) => name
      case None => Current(ts[..|ts| - 1])
  }

  /** Each id line under a non-empty theme, paired with that theme, in order. */
  function Assignments(ts: seq<LineTags>): (ps: seq<(string, string)>)
    ensures forall k :: 0 <= k < |ps| ==> ps[k].0 != ""
    ensures |ps| <= |ts|
  {
    if ts == [] then []
    else
      var id := ts[|ts| - 1].id;
      var theme := Current(ts);
      Assignments(ts[..|ts| - 1]) + (if id.Some? && theme != "" then [(theme, id.value)] else [])
  }

  /** Before any theme comment, no id line is assigned. */
  lemma {:induction false} NoThemeNoAssignments(ts: seq<LineTags>)
    requires forall i :: 0 <= i < |ts| ==> ts[i].tema.None?
    ensures Current(ts) == "" && Assignments(ts) == []
    decreases |ts|
  {
    if ts != [] {
      var init := ts[..|ts| - 1];
      assert forall i :: 0 <= i < |init| ==> init[i] == ts[i];
      NoThemeNoAssignments(init);
    }
  }

  // ---------------------------------------------------------------------------
  // Grouping the assignments by theme
  // ---------------------------------------------------------------------------

  function Names(themes: seq<Theme>): seq<string> {
    if themes == [] then [] else Names(themes[..|themes| - 1]) + [themes[|themes| - 1].name]
  }

  /** `themes.find(t => t.name === name)`, as an index. */
  function FindName(themes: seq<Theme>, name: string): (k: Option<nat>)
    ensures k.Some? ==> (k.value < |themes| && themes[k.value].name == name
      && forall j :: 0 <= j < k.value ==> themes[j].name != name)
    ensures k.None? ==> forall j :: 0 <= j < |themes| ==> themes[j].name != name
  {
    if themes == [] then None
    else if themes[0].name == name then Some(0)
    else
      match FindName(themes[1..], name)
      case None => None
      case Some(j) => Some(j + 1)
  }

  /** Adding id to the theme called name: appended to its ids, or a new theme at the end. */
  function AddId(themes: seq<Theme>, name: string, id: string): (r: seq<Theme>)
    ensures |r| == |themes| || |r| == |themes| + 1
  {
    match FindName(themes, name)
    case Some(k) => themes[k := Theme(name, themes[k].capabilityIds + [id])]
    case None => themes + [Theme(name, [id])]
  }

  function Group(ps: seq<(string, string)>): seq<Theme> {
    if ps == [] then []
    else
      var p := ps[|ps| - 1];
      AddId(Group(ps[..|ps| - 1]), p.0, p.1)
  }

  /** `extractThemes(raw)` */
  function ThemesOf(raw: string): seq<Theme> {
    Group(Assignments(Tags(Split(raw, '\n'))))
  }

  /** The names that occur in ps, each once, in the order of their first occurrence. */
  function FirstOccurrences(ps: seq<(string, string)>): (ns: seq<string>)
    ensures forall n :: n in ns <==> exists k :: 0 <= k < |ps| && ps[k].0 == n
  {
    if ps == [] then []
    else
      var init := FirstOccurrences(ps[..|ps| - 1]);
      var n := ps[|ps| - 1].0;
      var ns := if n in init then init else init + [n];
      assert forall m :: m in ns <==> exists k :: 0 <= k < |ps| && ps[k].0 == m by {
        forall m | m in ns ensures exists k :: 0 <= k < |ps| && ps[k].0 == m {
          if m != n {
            var k :| 0 <= k < |ps| - 1 && ps[..|ps| - 1][k].0 == m;
            assert ps[k].0 == m;
          }
        }
        forall m | exists k :: 0 <= k < |ps| && ps[k].0 == m ensures m in ns {
          var k :| 0 <= k < |ps| && ps[k].0 == m;
          if k < |ps| - 1 {
            assert ps[..|ps| - 1][k].0 == m;
          }
        }
      }
      ns
  }

  /** The ids assigned to the theme called name, in order. */
  function IdsOf(ps: seq<(string, string)>, name: string): seq<string> {
    if ps == [] then []
    else IdsOf(ps[..|ps| - 1], name) + (if ps[|ps| - 1].0 == name then [ps[|ps| - 1].1] else [])
  }

  predicate Distinct(ns: seq<string>) {
    forall i, j :: 0 <= i < j < |ns| ==> ns[i] != ns[j]
  }

  lemma {:induction false} NamesIndex(themes: seq<Theme>)
    ensures |Names(themes)| == |themes|
    ensures forall k :: 0 <= k < |themes| ==> Names(themes)[k] == themes[k].name
    decreases |themes|
  {
    if themes != [] {
      NamesIndex(themes[..|themes| - 1]);
    }
  }

  /**
   * The themes are the assigned names, each once, in first-appearance order;
   * a later assignment to an existing name merges into that theme.
   */
  lemma {:induction false} GroupNames(ps: seq<(string, string)>)
    ensures Names(Group(ps)) == FirstOccurrences(ps)
    decreases |ps|
  {
    if ps != [] {
      var init := ps[..|ps| - 1];
      var p := ps[|ps| - 1];
      GroupNames(init);
      AddIdNames(Group(init), p.0, p.1);
    }
  }

  /** Adding to an existing theme keeps the names; a new name goes last. */
  lemma AddIdNames(g: seq<Theme>, name: string, id: string)
    ensures name in Names(g) ==> Names(AddId(g, name, id)) == Names(g)
    ensures name !in Names(g) ==> Names(AddId(g, name, id)) == Names(g) + [name]
  {
    var r := AddId(g, name, id);
    NamesIndex(g);
    NamesIndex(r);
    match FindName(g, name)
    case Some(k) =>
      assert Names(g)[k] == name;
      assert Names(r) == Names(g);
    case None =>
      assert forall k :: 0 <= k < |Names(g)| ==> Names(g)[k] != name;
      assert Names(r) == Names(g) + [name];
  }

  /** No two themes share a name. */
  lemma {:induction false} GroupDistinct(ps: seq<(string, string)>)
    ensures Distinct(Names(Group(ps)))
    ensures forall i, j :: 0 <= i < j < |Group(ps)| ==> Group(ps)[i].name != Group(ps)[j].name
    decreases |ps|
  {
    if ps != [] {
      var init := ps[..|ps| - 1];
      var p := ps[|ps| - 1];
      GroupDistinct(init);
      NamesIndex(Group(ps));
    }
  }

  lemma {:induction false} IdsOfAbsent(ps: seq<(string, string)>, name: string)
    requires forall k :: 0 <= k < |ps| ==> ps[k].0 != name
    ensures IdsOf(ps, name) == []
    decreases |ps|
  {
    if ps != [] {
      var init := ps[..|ps| - 1];
      assert forall k :: 0 <= k < |init| ==> init[k] == ps[k];
      IdsOfAbsent(init, name);
    }
  }

  /** Each theme holds exactly the ids assigned to its name, in order. */
  lemma {:induction false} GroupIds(ps: seq<(string, string)>)
    ensures forall k :: 0 <= k < |Group(ps)| ==> Group(ps)[k].capabilityIds == IdsOf(ps, Group(ps)[k].name)
    decreases |ps|
  {
    if ps != [] {
      var init := ps[..|ps| - 1];
      var p := ps[|ps| - 1];
      var g := Group(init);
      var r := Group(ps);
      assert r == AddId(g, p.0, p.1);
      GroupIds(init);
      GroupDistinct(init);
      forall k | 0 <= k < |r| ensures r[k].capabilityIds == IdsOf(ps, r[k].name) {
        assert IdsOf(ps, r[k].name) == IdsOf(init, r[k].name) + (if p.0 == r[k].name then [p.1] else []);
        match FindName(g, p.0)
        case Some(j) =>
          if k != j {
            assert r[k] == g[k] && g[k].name != g[j].name;
          } else {
            assert r[k] == Theme(p.0, g[j].capabilityIds + [p.1]);
          }
        case None =>
          if k < |g| {
            assert r[k] == g[k];
          } else {
            assert r[k] == Theme(p.0, [p.1]);
            GroupNames(init);
            NamesIndex(g);
            assert p.0 !in FirstOccurrences(init) by {
              assert forall i :: 0 <= i < |Names(g)| ==> Names(g)[i] != p.0;
            }
            assert forall i :: 0 <= i < |init| ==> init[i].0 != p.0;
            IdsOfAbsent(init, p.0);
          }
      }
    }
  }

  // ---------------------------------------------------------------------------
  // The loop
  // ---------------------------------------------------------------------------

  method ExtractThemes(raw: string) returns (themes: seq<Theme>)
    ensures themes == ThemesOf(raw)
  {
    themes := [];
    var currentTheme := "";
    var lines := Split(raw, '\n');
    ghost var ts := Tags(lines);
    for i := 0 to |lines|
      invariant currentTheme == Current(ts[..i])
      invariant themes == Group(Assignments(ts[..i]))
    {
      var theme', themes' := ThemeLine(lines[i], currentTheme, themes);
      ScanPrefix(ts, i, currentTheme, themes, theme', themes');
      currentTheme, themes := theme', themes';
    }
    assert ts[..|lines|] == ts;
  }

  /** One iteration of the scan keeps the loop's two invariants. */
  lemma ScanPrefix(ts: seq<LineTags>, i: nat, theme: string, themes: seq<Theme>, theme': string, themes': seq<Theme>)
    requires i < |ts|
    requires theme == Current(ts[..i]) && themes == Group(Assignments(ts[..i]))
    requires theme' == (if ts[i].tema.Some? then ts[i].tema.value else theme)
    requires themes' == (if ts[i].id.Some? && theme' != "" then AddId(themes, theme', ts[i].id.value) else themes)
    ensures theme' == Current(ts[..i + 1]) && themes' == Group(Assignments(ts[..i + 1]))
  {
    ScanStep(ts[..i + 1], ts[..i], ts[i]);
  }

  lemma GroupLast(q: seq<(string, string)>)
    requires q != []
    ensures Group(q) == AddId(Group(q[..|q| - 1]), q[|q| - 1].0, q[|q| - 1].1)
  {
  }

  /** What one more line does to the theme in effect and to the grouped themes. */
  lemma ScanStep(ls: seq<LineTags>, init: seq<LineTags>, last: LineTags)
    requires ls == init + [last]
    ensures Current(ls) == (if last.tema.Some? then last.tema.value else Current(init))
    ensures Group(Assignments(ls))
      == (if last.id.Some? && Current(ls) != ""
          then AddId(Group(Assignments(init)), Current(ls), last.id.value)
          else Group(Assignments(init)))
  {
    assert ls[..|ls| - 1] == init && ls[|ls| - 1] == last;
    var ps := Assignments(init);
    if last.id.Some? && Current(ls) != "" {
      var p := (Current(ls), last.id.value);
      var q := ps + [p];
      assert Assignments(ls) == q;
      assert q[..|q| - 1] == ps && q[|q| - 1] == p;
      GroupLast(q);
    } else {
      assert ps + [] == ps;
      assert Assignments(ls) == ps;
    }
  }

  /** The callback `extractThemes` runs on each line. */
  method ThemeLine(line: string, currentTheme: string, themes: seq<Theme>) returns (theme': string, themes': seq<Theme>)
    ensures theme' == (if TemaLine(line).Some? then TemaLine(line).value else currentTheme)
    ensures themes' == (if IdLine(line).Some? && theme' != "" then AddId(themes, theme', IdLine(line).value) else themes)
  {
    theme', themes' := currentTheme, themes;
    var temaMatch := TemaLine(line);
    if temaMatch.Some? {
      theme' := temaMatch.value;
    }
    var idMatch := IdLine(line);
    if idMatch.Some? && theme' != "" {
      var id := idMatch.value;
      var existing := FindTheme(themes', theme');
      if existing.Some? {
        var k := existing.value;
        themes' := themes'[k := Theme(themes'[k].name, themes'[k].capabilityIds + [id])];
      } else {
        themes' := themes' + [Theme(theme', [id])];
      }
    }
  }

  /** The search of `themes.find`. */
  method FindTheme(themes: seq<Theme>, name: string) returns (k: Option<nat>)
    ensures k == FindName(themes, name)
  {
    var j := 0;
    while j < |themes|
      invariant j <= |themes|
      invariant forall i :: 0 <= i < j ==> themes[i].name != name
    {
      if themes[j].name == name {
        FindNameFirst(themes, name, j);
        return Some(j);
      }
      j := j + 1;
    }
    FindNameNone(themes, name);
    return None;
  }

  lemma FindNameFirst(themes: seq<Theme>, name: string, j: nat)
    requires j < |themes| && themes[j].name == name
    requires forall i :: 0 <= i < j ==> themes[i].name != name
    ensures FindName(themes, name) == Some(j)
  {
    var r := FindName(themes, name);
    assert r.Some?;
  }

  lemma FindNameNone(themes: seq<Theme>, name: string)
    requires forall i :: 0 <= i < |themes| ==> themes[i].name != name
    ensures FindName(themes, name) == None
  {
  }

  // ---------------------------------------------------------------------------
  // getCapNumberMap
  // ---------------------------------------------------------------------------

  /** The (id, theme name) pairs in visiting order: themes in order, ids in order. */
  function Visits(themes: seq<Theme>): seq<(string, string)> {
    if themes == [] then []
    else
      var t := themes[|themes| - 1];
      Visits(themes[..|themes| - 1]) + Tagged(t.capabilityIds, t.name)
  }

  function Tagged(ids: seq<string>, name: string): (r: seq<(string, string)>)
    ensures |r| == |ids| && forall k :: 0 <= k < |ids| ==> r[k] == (ids[k], name)
  {
    if ids == [] then [] else Tagged(ids[..|ids| - 1], name) + [(ids[|ids| - 1], name)]
  }

  datatype CapNumber = CapNumber(number: nat, theme: string)

  /** `map[id] = { number: num, theme }` for each visit, num counting the visits. */
  function NumberMap(vs: seq<(string, string)>): (m: map<string, CapNumber>)
    ensures forall id :: id in m <==> exists j :: 0 <= j < |vs| && vs[j].0 == id
  {
    if vs == [] then map[]
    else
      var v := vs[|vs| - 1];
      var init := NumberMap(vs[..|vs| - 1]);
      var m := init[v.0 := CapNumber(|vs|, v.1)];
      assert forall id :: id in m <==> exists j :: 0 <= j < |vs| && vs[j].0 == id by {
        forall id | id in m ensures exists j :: 0 <= j < |vs| && vs[j].0 == id {
          if id != v.0 {
            var j :| 0 <= j < |vs| - 1 && vs[..|vs| - 1][j].0 == id;
            assert vs[j].0 == id;
          }
        }
        forall id | exists j :: 0 <= j < |vs| && vs[j].0 == id ensures id in m {
          var j :| 0 <= j < |vs| && vs[j].0 == id;
          if j < |vs| - 1 {
            assert vs[..|vs| - 1][j].0 == id;
          }
        }
      }
      m
  }

  /** The j-th visit (from 0) numbers its id j + 1, unless the id is visited again later. */
  lemma {:induction false} LastVisitWins(vs: seq<(string, string)>, j: nat)
    requires j < |vs|
    requires forall k :: j < k < |vs| ==> vs[k].0 != vs[j].0
    ensures vs[j].0 in NumberMap(vs)
    ensures NumberMap(vs)[vs[j].0] == CapNumber(j + 1, vs[j].1)
    decreases |vs|
  {
    if j < |vs| - 1 {
      var init := vs[..|vs| - 1];
      assert init[j] == vs[j];
      LastVisitWins(init, j);
    }
  }

  method GetCapNumberMap(themes: seq<Theme>) returns (m: map<string, CapNumber>)
    ensures m == NumberMap(Visits(themes))
  {
    var num := 0;
    m := map[];
    for t := 0 to |themes|
      invariant num == |Visits(themes[..t])|
      invariant m == NumberMap(Visits(themes[..t]))
    {
      VisitsLast(themes, t);
      m, num := NumberIds(Visits(themes[..t]), themes[t].capabilityIds, themes[t].name, m, num);
    }
    assert themes[..|themes|] == themes;
  }

  /** The inner loop of `getCapNumberMap`: one theme's ids numbered after the visits done so far. */
  method NumberIds(done: seq<(string, string)>, ids: seq<string>, name: string, m0: map<string, CapNumber>, num0: nat)
    returns (m: map<string, CapNumber>, num: nat)
    requires m0 == NumberMap(done) && num0 == |done|
    ensures m == NumberMap(done + Tagged(ids, name)) && num == |done| + |ids|
  {
    m, num := m0, num0;
    assert done + Tagged(ids[..0], name) == done;
    for k := 0 to |ids|
      invariant num == |done| + k
      invariant m == NumberMap(done + Tagged(ids[..k], name))
    {
      NumberStep(done, ids, name, k);
      m := m[ids[k] := CapNumber(|done| + k + 1, name)];
      num := num + 1;
    }
    assert ids[..|ids|] == ids;
  }

  lemma NumberStep(done: seq<(string, string)>, ids: seq<string>, name: string, k: nat)
    requires k < |ids|
    ensures NumberMap(done + Tagged(ids[..k + 1], name))
      == NumberMap(done + Tagged(ids[..k], name))[ids[k] := CapNumber(|done| + k + 1, name)]
  {
    var t0 := Tagged(ids[..k], name);
    var t1 := Tagged(ids[..k + 1], name);
    var v := (ids[k], name);
    TaggedSnoc(ids, k, name);
    assert t1 == t0 + [v];
    ConcatAssoc(done, t0, [v]);
    NumberMapSnoc(done + t0, v, done + t1, |done| + k + 1);
  }

  lemma TaggedSnoc(ids: seq<string>, k: nat, name: string)
    requires k < |ids|
    ensures Tagged(ids[..k + 1], name) == Tagged(ids[..k], name) + [(ids[k], name)]
  {
    assert ids[..k + 1][..k] == ids[..k];
  }

  lemma NumberMapSnoc(a: seq<(string, string)>, v: (string, string), vs: seq<(string, string)>, n: nat)
    requires vs == a + [v] && n == |a| + 1
    ensures NumberMap(vs) == NumberMap(a)[v.0 := CapNumber(n, v.1)]
  {
    assert vs[..|a|] == a;
  }

  lemma VisitsLast(themes: seq<Theme>, t: nat)
    requires t < |themes|
    ensures Visits(themes[..t + 1]) == Visits(themes[..t]) + Tagged(themes[t].capabilityIds, themes[t].name)
  {
    assert themes[..t + 1][..t] == themes[..t];
  }
}
