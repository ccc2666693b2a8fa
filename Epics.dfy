/**
 * The epics document's headings: `### Épico N: title` opens an epic and
 * `#### História N.M: title` a story of epic N. Each line contributes at most
 * one record, in document order.
 */
module Epics {

  import opened Options
  import opened Text
  import opened Patterns
  import opened JsValue

  datatype Epic = Epic(id: nat, title: string)

  /** A story's id keeps the two numerals as written (`1.10`); its epic is the first one's value. */
  datatype Story = Story(id: string, epicId: nat, title: string)

  const EpicHead := "### \U{C9}pico "
  const StoryHead := "#### Hist\U{F3}ria "

  /**
   * `head (\d+) sep rest` at the start of s: the numeral and what follows the
   * separator. The separator is not a digit, so the greedy `\d+` has one way to match.
   */
  function Numbered(s: string, head: string, sep: char): (r: Option<(string, string)>)
    requires !IsDigit(sep)
    ensures r.Some? ==> IsDigits(r.value.0) && s == head + r.value.0 + [sep] + r.value.1
  {
    if StartsWith(s, head) then
      var r := s[|head|..];
      var d := LeadingDigits(r);
      if d > 0 && d < |r| && r[d] == sep then
        assert s == head + r[..d] + [sep] + r[d + 1..] by {
          assert s == s[..|head|] + r;
          assert r == r[..d] + [r[d]] + r[d + 1..];
        }
        Some((r[..d], r[d + 1..]))
      else None
    else None
  }

  lemma NumberedOf(head: string, d: string, sep: char, rest: string)
    requires IsDigits(d) && !IsDigit(sep)
    ensures Numbered(head + d + [sep] + rest, head, sep) == Some((d, rest))
  {
    var s := head + d + [sep] + rest;
    var r := s[|head|..];
    assert s[..|head|] == head;
    assert r == d + ([sep] + rest);
    DigitsPrefix(d, [sep] + rest);
    assert r[..|d|] == d && r[|d|] == sep && r[|d| + 1..] == rest;
  }

  /** `:\s*(.+)$` after the separator: the trimmed title, when the rest is one line of text. */
  function Titled(tail: string): (t: Option<string>)
    ensures t.Some? <==> exists k :: 0 <= k < |tail| && AllSpace(tail[..k]) && NoLineTerminator(tail[k..])
    ensures t.Some? ==> t.value == Trim(tail)
  {
    var cap := SpacedRest(tail, 0);
    if cap.None? then None
    else
      SpacedRestTrim(tail, 0);
      Some(Trim(cap.value))
  }

  lemma TitledOf(title: string)
    requires title != [] && IsTrimmed(title) && NoLineTerminator(title)
    ensures Titled(" " + title) == Some(title)
  {
    var tail := " " + title;
    assert tail[1..] == title && tail[..1] == " ";
    assert AllSpace(tail[..1]) && NoLineTerminator(tail[1..]);
    assert Titled(tail).Some?;
    TrimAfterSpaces(" ", title);
    TrimOfTrimmed(title);
  }

  /** `line.match(/^### Épico (\d+):\s*(.+)$/)` */
  function EpicLine(line: string): (e: Option<Epic>)
    ensures e.Some? ==> StartsWith(line, EpicHead)
  {
    match Numbered(line, EpicHead, ':')
    case None => None
    case Some((d, tail)) =>
      match Titled(tail)
      case None => None
      case Some(t) =>
        assert line[..|EpicHead|] == EpicHead;
        Some(Epic(DigitsValue(d), t))
  }

  /** `line.match(/^#### História (\d+)\.(\d+):\s*(.+)$/)` */
  function StoryLine(line: string): (s: Option<Story>)
    ensures s.Some? ==> StartsWith(line, StoryHead)
    ensures s.Some? ==> exists n, m :: IsDigits(n) && IsDigits(m) && s.value.id == n + "." + m && s.value.epicId == DigitsValue(n)
  {
    match Numbered(line, StoryHead, '.')
    case None => None
    case Some((n, after)) =>
      match Numbered(after, "", ':')
      case None => None
      case Some((m, tail)) =>
        match Titled(tail)
        case None => None
        case Some(t) =>
          assert line[..|StoryHead|] == StoryHead;
          Some(Story(n + "." + m, DigitsValue(n), t))
  }

  /** line is `### Épico `, the numeral d, `:` and a one-line tail; e is d's value with the trimmed tail. */
  predicate EpicShaped(line: string, d: string, tail: string, e: Epic) {
    IsDigits(d) && line == EpicHead + d + ":" + tail && Titled(tail).Some? && e == Epic(DigitsValue(d), Trim(tail))
  }

  /** An epic record is the number and the trimmed title of its heading line. */
  lemma EpicLineMatch(line: string)
    ensures EpicLine(line).Some? ==> exists d, tail :: EpicShaped(line, d, tail, EpicLine(line).value)
  {
    if EpicLine(line).Some? {
      var (d, tail) := Numbered(line, EpicHead, ':').value;
      assert EpicShaped(line, d, tail, EpicLine(line).value);
    }
  }

  /** Conversely, every line of that shape is read as that epic. */
  lemma EpicShapedLine(line: string, d: string, tail: string, e: Epic)
    requires EpicShaped(line, d, tail, e)
    ensures EpicLine(line) == Some(e)
  {
    NumberedOf(EpicHead, d, ':', tail);
  }

  /**
   * line is `#### História `, the numerals n and m around `.`, `:` and a
   * one-line tail; st has the id `n.m` as written, n's value and the trimmed tail.
   */
  predicate StoryShaped(line: string, n: string, m: string, tail: string, st: Story) {
    && IsDigits(n) && IsDigits(m) && line == StoryHead + n + "." + m + ":" + tail
    && Titled(tail).Some? && st == Story(n + "." + m, DigitsValue(n), Trim(tail))
  }

  /** A story record is the two numerals and the trimmed title of its heading line. */
  lemma StoryLineMatch(line: string)
    ensures StoryLine(line).Some? ==> exists n, m, tail :: StoryShaped(line, n, m, tail, StoryLine(line).value)
  {
    if StoryLine(line).Some? {
      var (n, after) := Numbered(line, StoryHead, '.').value;
      var (m, tail) := Numbered(after, "", ':').value;
      var t := Titled(tail).value;
      StoryLineParts(line, n, after, m, tail, t);
      StoryWitness(line, n, after, m, tail);
    }
  }

  /** Conversely, every line of that shape is read as that story. */
  lemma StoryShapedLine(line: string, n: string, m: string, tail: string, st: Story)
    requires StoryShaped(line, n, m, tail, st)
    ensures StoryLine(line) == Some(st)
  {
    StoryNumerals(n, m, tail);
  }

  lemma StoryNumerals(n: string, m: string, tail: string)
    requires IsDigits(n) && IsDigits(m)
    ensures Numbered(StoryHead + n + "." + m + ":" + tail, StoryHead, '.') == Some((n, m + ":" + tail))
    ensures Numbered(m + ":" + tail, "", ':') == Some((m, tail))
  {
    var after := m + ":" + tail;
    Regroup(StoryHead + n + ".", m, ":", tail);
    NumberedOf(StoryHead, n, '.', after);
    assert after == [] + m + [':'] + tail;
    NumberedOf([], m, ':', tail);
  }

  lemma StoryWitness(line: string, n: string, after: string, m: string, tail: string)
    requires Numbered(line, StoryHead, '.') == Some((n, after))
    requires Numbered(after, "", ':') == Some((m, tail))
    requires Titled(tail).Some?
    ensures StoryShaped(line, n, m, tail, Story(n + "." + m, DigitsValue(n), Trim(tail)))
  {
    JoinNumerals(line, StoryHead, n, after, m, tail);
  }

  lemma JoinNumerals(line: string, h: string, n: string, after: string, m: string, tail: string)
    requires line == h + n + ['.'] + after && after == [] + m + [':'] + tail
    ensures line == h + n + "." + m + ":" + tail
  {
    assert [] + m == m;
  }

  lemma HeadsDiffer(line: string)
    ensures StartsWith(line, EpicHead) ==> !StartsWith(line, StoryHead)
  {
    if StartsWith(line, EpicHead) {
      assert line[3] == EpicHead[3];
    }
  }

  /** A line never opens both an epic and a story. */
  lemma OneRecordPerLine(line: string)
    ensures EpicLine(line).Some? ==> StoryLine(line).None?
  {
    HeadsDiffer(line);
  }

  /** An epic heading written out reads back as its number and title. */
  lemma EpicLineOf(n: nat, title: string)
    requires title != [] && IsTrimmed(title) && NoLineTerminator(title)
    ensures EpicLine(EpicHead + NatToDigits(n) + ": " + title) == Some(Epic(n, title))
  {
    var d := NatToDigits(n);
    assert EpicHead + d + ": " + title == EpicHead + d + [':'] + (" " + title);
    NumberedOf(EpicHead, d, ':', " " + title);
    TitledOf(title);
    DigitsValueOfNat(n);
  }

  lemma Regroup(x: string, a: string, b: string, c: string)
    ensures x + a + b + c == x + (a + b + c)
  {
  }

  lemma ColonAfterDigits(d: string, title: string)
    requires IsDigits(d)
    ensures Numbered(d + ": " + title, "", ':') == Some((d, " " + title))
  {
    var tail := " " + title;
    assert d + ": " + title == [] + d + [':'] + tail;
    NumberedOf([], d, ':', tail);
  }

  lemma StoryLineParts(line: string, n: string, after: string, m: string, tail: string, t: string)
    requires Numbered(line, StoryHead, '.') == Some((n, after))
    requires Numbered(after, "", ':') == Some((m, tail))
    requires Titled(tail) == Some(t)
    ensures StoryLine(line) == Some(Story(n + "." + m, DigitsValue(n), t))
  {
  }

  /** A story heading written out reads back as its numerals, its epic and its title. */
  lemma StoryLineOf(n: nat, m: nat, title: string)
    requires title != [] && IsTrimmed(title) && NoLineTerminator(title)
    ensures StoryLine(StoryHead + NatToDigits(n) + "." + NatToDigits(m) + ": " + title)
         == Some(Story(NatToDigits(n) + "." + NatToDigits(m), n, title))
  {
    var dn := NatToDigits(n);
    var dm := NatToDigits(m);
    var after := dm + ": " + title;
    var line := StoryHead + dn + "." + dm + ": " + title;
    var tail := " " + title;
    assert Numbered(line, StoryHead, '.') == Some((dn, after)) by {
      Regroup(StoryHead + dn + ".", dm, ": ", title);
      NumberedOf(StoryHead, dn, '.', after);
    }
    assert Numbered(after, "", ':') == Some((dm, tail)) by {
      ColonAfterDigits(dm, title);
    }
    assert Titled(tail) == Some(title) by {
      TitledOf(title);
    }
    assert DigitsValue(dn) == n by {
      DigitsValueOfNat(n);
    }
    StoryLineParts(line, dn, after, dm, tail, title);
  }

  // ---------------------------------------------------------------------------
  // The scan
  // ---------------------------------------------------------------------------

  /** The epics of the lines, in order. */
  function EpicsOf(lines: seq<string>): seq<Epic> {
    if lines == [] then []
    else
      var e := EpicLine(lines[|lines| - 1]);
      EpicsOf(lines[..|lines| - 1]) + (if e.Some? then [e.value] else [])
  }

  /** The stories of the lines that are not epic headings, in order. */
  function StoriesOf(lines: seq<string>): seq<Story> {
    if lines == [] then []
    else
      var line := lines[|lines| - 1];
      var s := StoryLine(line);
      StoriesOf(lines[..|lines| - 1]) + (if EpicLine(line).None? && s.Some? then [s.value] else [])
  }

  datatype EpicLists = EpicLists(epics: seq<Epic>, stories: seq<Story>)

  /** `parseEpicsLists(text)` */
  function EpicsLists(text: Value): (r: EpicLists)
    ensures NonEmptyText(text).None? ==> r == EpicLists([], [])
  {
    match NonEmptyText(text)
    case None => EpicLists([], [])
    case Some(t) =>
      var lines := Split(t, '\n');
      EpicLists(EpicsOf(lines), StoriesOf(lines))
  }

  method ParseEpicsLists(text: Value) returns (epics: seq<Epic>, stories: seq<Story>)
    ensures EpicLists(epics, stories) == EpicsLists(text)
  {
    epics := [];
    stories := [];
    if !text.Str? || text.s == [] {
      return;
    }
    var lines := Split(text.s, '\n');
    for i := 0 to |lines|
      invariant epics == EpicsOf(lines[..i]) && stories == StoriesOf(lines[..i])
    {
      PrefixSnoc(lines, i);
      ScanStep(lines[..i + 1], lines[..i], lines[i]);
      epics, stories := ScanLine(lines[i], epics, stories);
    }
    assert lines[..|lines|] == lines;
  }

  /** The callback `parseEpicsLists` runs on each line: an epic heading, else a story heading. */
  method ScanLine(line: string, epics: seq<Epic>, stories: seq<Story>) returns (epics': seq<Epic>, stories': seq<Story>)
    ensures EpicLine(line).Some? ==> epics' == epics + [EpicLine(line).value] && stories' == stories
    ensures EpicLine(line).None? && StoryLine(line).Some? ==> epics' == epics && stories' == stories + [StoryLine(line).value]
    ensures EpicLine(line).None? && StoryLine(line).None? ==> epics' == epics && stories' == stories
  {
    epics', stories' := epics, stories;
    var em := EpicLine(line);
    if em.Some? {
      epics' := epics + [em.value];
      return;
    }
    var sm := StoryLine(line);
    if sm.Some? {
      stories' := stories + [sm.value];
    }
  }

  /** One more line adds its epic, or else its story, or nothing. */
  lemma ScanStep(ls: seq<string>, init: seq<string>, line: string)
    requires ls == init + [line]
    ensures EpicsOf(ls) == EpicsOf(init) + (if EpicLine(line).Some? then [EpicLine(line).value] else [])
    ensures StoriesOf(ls) == StoriesOf(init) + (if EpicLine(line).None? && StoryLine(line).Some? then [StoryLine(line).value] else [])
  {
    assert ls[..|ls| - 1] == init && ls[|ls| - 1] == line;
  }

  /** Every story is the story heading of a line that is not an epic heading; so is every epic for epic headings. */
  lemma {:induction false} RecordsFromLines(lines: seq<string>)
    ensures forall e :: e in EpicsOf(lines) ==> exists j :: 0 <= j < |lines| && EpicLine(lines[j]) == Some(e)
    ensures forall s :: s in StoriesOf(lines) ==> exists j :: 0 <= j < |lines| && StoryLine(lines[j]) == Some(s)
    ensures |EpicsOf(lines)| + |StoriesOf(lines)| <= |lines|
    decreases |lines|
  {
    if lines != [] {
      var init := lines[..|lines| - 1];
      var line := lines[|lines| - 1];
      RecordsFromLines(init);
      OneRecordPerLine(line);
      assert forall j :: 0 <= j < |init| ==> init[j] == lines[j];
      forall e | e in EpicsOf(lines) ensures exists j :: 0 <= j < |lines| && EpicLine(lines[j]) == Some(e) {
        if e !in EpicsOf(init) {
          assert EpicLine(lines[|lines| - 1]) == Some(e);
        } else {
          var j :| 0 <= j < |init| && EpicLine(init[j]) == Some(e);
          assert EpicLine(lines[j]) == Some(e);
        }
      }
      forall s | s in StoriesOf(lines) ensures exists j :: 0 <= j < |lines| && StoryLine(lines[j]) == Some(s) {
        if s !in StoriesOf(init) {
          assert StoryLine(lines[|lines| - 1]) == Some(s);
        } else {
          var j :| 0 <= j < |init| && StoryLine(init[j]) == Some(s);
          assert StoryLine(lines[j]) == Some(s);
        }
      }
    }
  }

  lemma {:induction false} EpicsOfAppend(a: seq<string>, b: seq<string>)
    ensures EpicsOf(a + b) == EpicsOf(a) + EpicsOf(b)
    decreases |b|
  {
    if b == [] {
      assert a + b == a;
    } else {
      var init := b[..|b| - 1];
      var e := EpicLine(b[|b| - 1]);
      var x := if e.Some? then [e.value] else [];
      ConcatInit(a, b);
      EpicsOfAppend(a, init);
      assert EpicsOf(a + b) == EpicsOf(a + init) + x;
      ConcatAssoc(EpicsOf(a), EpicsOf(init), x);
    }
  }

  /** The records of a document are those of its first lines followed by those of the rest. */
  lemma {:induction false} StoriesOfAppend(a: seq<string>, b: seq<string>)
    ensures StoriesOf(a + b) == StoriesOf(a) + StoriesOf(b)
    decreases |b|
  {
    if b == [] {
      assert a + b == a;
    } else {
      var init := b[..|b| - 1];
      var line := b[|b| - 1];
      var st := StoryLine(line);
      var x := if EpicLine(line).None? && st.Some? then [st.value] else [];
      ConcatInit(a, b);
      StoriesOfAppend(a, init);
      assert StoriesOf(a + b) == StoriesOf(a + init) + x;
      ConcatAssoc(StoriesOf(a), StoriesOf(init), x);
    }
  }

  lemma TitledBeforeCarriageReturn(tail: string)
    requires tail != [] && tail[|tail| - 1] == '\r'
    ensures Titled(tail).None?
  {
    forall k | 0 <= k < |tail| ensures !NoLineTerminator(tail[k..]) {
      assert tail[k..][|tail| - 1 - k] == '\r';
    }
  }

  /**
   * `.` does not match `\r`, so a heading on a line that still ends in a
   * carriage return (a CRLF document split on `\n`) is not recognised.
   */
  lemma CarriageReturnHidesHeading(line: string)
    ensures EpicLine(line + "\r").None? && StoryLine(line + "\r").None?
  {
    var s := line + "\r";
    assert s[|s| - 1] == '\r';
    EpicLineBeforeCarriageReturn(s);
    StoryLineBeforeCarriageReturn(s);
  }

  lemma EpicLineBeforeCarriageReturn(s: string)
    requires s != [] && s[|s| - 1] == '\r'
    ensures EpicLine(s).None?
  {
    var e := Numbered(s, EpicHead, ':');
    if e.Some? {
      var tail := e.value.1;
      if tail != [] {
        assert tail[|tail| - 1] == s[|s| - 1];
        TitledBeforeCarriageReturn(tail);
      }
    }
  }

  lemma StoryLineBeforeCarriageReturn(s: string)
    requires s != [] && s[|s| - 1] == '\r'
    ensures StoryLine(s).None?
  {
    var n := Numbered(s, StoryHead, '.');
    if n.Some? {
      var after := n.value.1;
      if after != [] {
        assert after[|after| - 1] == s[|s| - 1];
      }
      var m := Numbered(after, "", ':');
      if m.Some? {
        var tail := m.value.1;
        if tail != [] {
          assert tail[|tail| - 1] == after[|after| - 1];
          TitledBeforeCarriageReturn(tail);
        }
      }
    }
  }
}
