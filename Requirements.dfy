/**
 * The requirement tables of the product document: rows
 * `| RF-001 | capability | ... | status |` under `### section` headings are
 * sorted into an implemented list and a planned list, the planned list ranked
 * by an explicit or positional priority.
 */
module Requirements {

  import opened Options
  import opened Text
  import opened Patterns
  import opened JsValue
  import PlanOrder

  // ---------------------------------------------------------------------------
  // Personas
  // ---------------------------------------------------------------------------

  /** The combining diacritical marks U+0300..U+036F. */
  predicate IsMark(c: char) {
    '\U{300}' <= c <= '\U{36F}'
  }

  /** The base letter of a Latin-1 letter that decomposes canonically; c itself otherwise. */
  function BaseLetter(c: char): char {
    if c < '\U{C0}' || c > '\U{FF}' then c
    else if c <= '\U{C5}' then 'A'
    else if c == '\U{C7}' then 'C'
    else if '\U{C8}' <= c <= '\U{CB}' then 'E'
    else if '\U{CC}' <= c <= '\U{CF}' then 'I'
    else if c == '\U{D1}' then 'N'
    else if '\U{D2}' <= c <= '\U{D6}' then 'O'
    else if '\U{D9}' <= c <= '\U{DC}' then 'U'
    else if c == '\U{DD}' then 'Y'
    else if '\U{E0}' <= c <= '\U{E5}' then 'a'
    else if c == '\U{E7}' then 'c'
    else if '\U{E8}' <= c <= '\U{EB}' then 'e'
    else if '\U{EC}' <= c <= '\U{EF}' then 'i'
    else if c == '\U{F1}' then 'n'
    else if '\U{F2}' <= c <= '\U{F6}' then 'o'
    else if '\U{F9}' <= c <= '\U{FC}' then 'u'
    else if c == '\U{FD}' || c == '\U{FF}' then 'y'
    else c
  }

  /** A character the folding leaves alone. */
  predicate Plain(c: char) {
    !IsMark(c) && BaseLetter(c) == c
  }

  lemma BaseLetterPlain(c: char)
    ensures !IsMark(c) ==> Plain(BaseLetter(c))
  {
  }

  /** Canonical decomposition of one character with its combining marks removed. */
  function FoldChar(c: char): string {
    if IsMark(c) then [] else [BaseLetter(c)]
  }

  /** `s.normalize('NFD').replace(/[\u0300-\u036f]/g, '')` */
  function FoldMarks(s: string): string {
    if s == [] then [] else FoldChar(s[0]) + FoldMarks(s[1..])
  }

  /** The folded text holds no mark and no letter that decomposes further. */
  lemma {:induction false} FoldedIsPlain(s: string)
    ensures forall i :: 0 <= i < |FoldMarks(s)| ==> Plain(FoldMarks(s)[i])
    decreases |s|
  {
    if s != [] {
      BaseLetterPlain(s[0]);
      FoldedIsPlain(s[1..]);
      var h := FoldChar(s[0]);
      var tl := FoldMarks(s[1..]);
      var r := FoldMarks(s);
      assert r == h + tl;
      forall i | 0 <= i < |r| ensures Plain(r[i]) {
        if i >= |h| {
          assert r[i] == tl[i - |h|];
        }
      }
    }
  }

  /** A string below U+00C0 folds to itself. */
  lemma {:induction false} FoldPlain(s: string)
    requires forall i :: 0 <= i < |s| ==> s[i] < '\U{C0}'
    ensures FoldMarks(s) == s
    decreases |s|
  {
    if s != [] {
      FoldPlain(s[1..]);
      assert s == [s[0]] + s[1..];
    }
  }

  lemma {:induction false} FoldAppend(a: string, b: string)
    ensures FoldMarks(a + b) == FoldMarks(a) + FoldMarks(b)
    decreases |a|
  {
    if a != [] {
      ConcatTail(a, b);
      FoldAppend(a[1..], b);
    } else {
      assert a + b == b;
    }
  }

  /** One accented letter between plain text folds to its base letter. */
  lemma FoldAccented(pre: string, c: char, post: string)
    requires forall i :: 0 <= i < |pre| ==> pre[i] < '\U{C0}'
    requires forall i :: 0 <= i < |post| ==> post[i] < '\U{C0}'
    requires !IsMark(c)
    ensures FoldMarks(pre + [c] + post) == pre + [BaseLetter(c)] + post
  {
    var b := BaseLetter(c);
    FoldPlain(pre);
    FoldPlain(post);
    FoldOne(c);
    FoldAppend(pre, [c]);
    assert FoldMarks(pre + [c]) == pre + [b];
    FoldAppend(pre + [c], post);
  }

  lemma FoldOne(c: char)
    requires !IsMark(c)
    ensures FoldMarks([c]) == [BaseLetter(c)]
  {
    assert [c][1..] == [];
    assert FoldChar(c) == [BaseLetter(c)];
  }

  const Personas: seq<string> := ["paciente", "m\U{E9}dico", "medico", "secret\U{E1}ria", "secretaria", "interno"]

  /** The persona names with their accents folded away. */
  const PersonaKeys: set<string> := {"paciente", "medico", "secretaria", "interno"}

  /** A cell's text as `isPersonaValue` compares it: trimmed, lower-cased, accents removed. */
  function PersonaForm(s: string): string {
    FoldMarks(Lower(Trim(s)))
  }

  /** `isPersonaValue(s)`: s is, folded, one of the persona names. */
  predicate IsPersonaValue(s: string) {
    s != [] && exists i :: 0 <= i < |Personas| && (PersonaForm(s) == FoldMarks(Personas[i]) || PersonaForm(s) == Personas[i])
  }

  /** The persona names, folded: `pNorm` for each entry of the list. */
  const FoldedNames: seq<string> := ["paciente", "medico", "medico", "secretaria", "secretaria", "interno"]

  lemma FoldedPersona(i: nat)
    requires i < |Personas|
    ensures FoldMarks(Personas[i]) == FoldedNames[i]
  {
    if i == 0 {
      assert Personas[0] == "paciente";
      FoldPlain("paciente");
    } else if i == 1 {
      assert Personas[1] == "m\U{E9}dico";
      FoldMedico();
    } else if i == 2 {
      assert Personas[2] == "medico";
      FoldPlain("medico");
    } else if i == 3 {
      assert Personas[3] == "secret\U{E1}ria";
      FoldSecretaria();
    } else if i == 4 {
      assert Personas[4] == "secretaria";
      FoldPlain("secretaria");
    } else {
      assert Personas[5] == "interno";
      FoldPlain("interno");
    }
  }

  lemma FoldMedico()
    ensures FoldMarks("m\U{E9}dico") == "medico"
  {
    var w := "m" + ['\U{E9}'] + "dico";
    assert w == "m\U{E9}dico";
    assert BaseLetter('\U{E9}') == 'e';
    FoldAccented("m", '\U{E9}', "dico");
    assert FoldMarks(w) == "m" + ['e'] + "dico";
    assert "m" + ['e'] + "dico" == "medico";
  }

  lemma FoldSecretaria()
    ensures FoldMarks("secret\U{E1}ria") == "secretaria"
  {
    var w := "secret" + ['\U{E1}'] + "ria";
    assert w == "secret\U{E1}ria";
    assert BaseLetter('\U{E1}') == 'a';
    FoldAccented("secret", '\U{E1}', "ria");
    assert FoldMarks(w) == "secret" + ['a'] + "ria";
    assert "secret" + ['a'] + "ria" == "secretaria";
  }

  /** A cell is a persona exactly when its folded, lower-cased text is one of the four persona names. */
  lemma PersonaValueIff(s: string)
    ensures IsPersonaValue(s) <==> PersonaForm(s) in PersonaKeys
  {
    if IsPersonaValue(s) {
      PersonaValueOnly(s);
    }
    if PersonaForm(s) in PersonaKeys {
      PersonaValueIf(s);
    }
  }

  lemma PersonaValueOnly(s: string)
    requires IsPersonaValue(s)
    ensures PersonaForm(s) in PersonaKeys
  {
    var t := PersonaForm(s);
    var i :| 0 <= i < |Personas| && (t == FoldMarks(Personas[i]) || t == Personas[i]);
    FoldedPersona(i);
    if t != FoldMarks(Personas[i]) {
      FoldedIsPlain(Lower(Trim(s)));
      PlainPersonaFolded(i, t);
    }
    FoldedNamesAreKeys(i);
  }

  /** A name without marks or decomposable letters is one of the unaccented persona names. */
  lemma PlainPersonaFolded(i: nat, t: string)
    requires i < |Personas| && t == Personas[i]
    requires forall k :: 0 <= k < |t| ==> Plain(t[k])
    ensures t == FoldedNames[i]
  {
    AccentedNames();
  }

  lemma FoldedNamesAreKeys(i: nat)
    requires i < |FoldedNames|
    ensures FoldedNames[i] in PersonaKeys
  {
  }

  lemma PersonaValueIf(s: string)
    requires PersonaForm(s) in PersonaKeys
    ensures IsPersonaValue(s)
  {
    var t := PersonaForm(s);
    assert s != [] by {
      if s == [] {
        EmptyPersonaForm();
      }
    }
    var i := KeyIndex(t);
    FoldedPersona(i);
    assert PersonaForm(s) == FoldMarks(Personas[i]);
  }

  /** Each persona key is the folded form of some entry of the list. */
  lemma KeyIndex(t: string) returns (i: nat)
    requires t in PersonaKeys
    ensures i < |FoldedNames| && t == FoldedNames[i]
  {
    i := if t == "paciente" then 0 else if t == "medico" then 2 else if t == "secretaria" then 4 else 5;
  }

  lemma EmptyPersonaForm()
    ensures PersonaForm([]) == []
  {
    assert Trim([]) == [];
    assert Lower([]) == [];
  }

  /** The accented names hold a character the folding changes. */
  lemma AccentedNames()
    ensures |Personas[1]| > 1 && !Plain(Personas[1][1])
    ensures |Personas[3]| > 6 && !Plain(Personas[3][6])
    ensures Personas[0] == FoldedNames[0] && Personas[2] == FoldedNames[2]
    ensures Personas[4] == FoldedNames[4] && Personas[5] == FoldedNames[5]
  {
  }

  /** The display names `normalizePersona` gives. */
  const DisplayNames: set<string> := {"Paciente", "M\U{E9}dico", "Secret\U{E1}ria", "Interno"}

  /** The display name of each persona, by its folded name. */
  const DisplayOf: map<string, string> :=
    map["paciente" := "Paciente", "medico" := "M\U{E9}dico", "secretaria" := "Secret\U{E1}ria", "interno" := "Interno"]

  /**
   * `normalizePersona(s)`: a cell spelling one of the persona names (trimmed,
   * lower-cased, with or without its precomposed accent) gets the display name
   * of that persona; any other cell gets "".
   */
  function NormalizePersona(s: string): (r: string)
    ensures r == "" || r in DisplayNames
    ensures r != "" <==> Lower(Trim(s)) in Personas
    ensures r != "" ==> PersonaForm(s) in DisplayOf && r == DisplayOf[PersonaForm(s)]
  {
    var t := Lower(Trim(s));
    PersonaSpellings(s);
    DisplayOfEntries();
    if s == [] then ""
    else if t == "paciente" then
      SpellingDisplay(s, 0);
      "Paciente"
    else if t == "medico" || t == "m\U{E9}dico" then
      SpellingDisplay(s, if t == "medico" then 2 else 1);
      "M\U{E9}dico"
    else if t == "secretaria" || t == "secret\U{E1}ria" then
      SpellingDisplay(s, if t == "secretaria" then 4 else 3);
      "Secret\U{E1}ria"
    else if t == "interno" then
      SpellingDisplay(s, 5);
      "Interno"
    else ""
  }

  lemma PersonaSpellings(s: string)
    ensures var t := Lower(Trim(s));
      && (s == [] ==> t !in Personas)
      && (t in Personas <==> (t == "paciente" || t == "medico" || t == "m\U{E9}dico"
                              || t == "secretaria" || t == "secret\U{E1}ria" || t == "interno"))
  {
    if s == [] {
      EmptyPersonaForm();
    }
    PersonaMembers(Lower(Trim(s)));
  }

  lemma PersonaMembers(t: string)
    ensures t in Personas <==> (t == "paciente" || t == "medico" || t == "m\U{E9}dico"
                                || t == "secretaria" || t == "secret\U{E1}ria" || t == "interno")
  {
  }

  /** A cell spelling a persona name reads, folded, as that name without accents. */
  lemma SpellingDisplay(s: string, i: nat)
    requires i < |Personas| && Lower(Trim(s)) == Personas[i]
    ensures PersonaForm(s) == FoldedNames[i]
  {
    FoldedPersona(i);
  }

  lemma DisplayOfEntries()
    ensures "paciente" in DisplayOf && DisplayOf["paciente"] == "Paciente"
    ensures "medico" in DisplayOf && DisplayOf["medico"] == "M\U{E9}dico"
    ensures "secretaria" in DisplayOf && DisplayOf["secretaria"] == "Secret\U{E1}ria"
    ensures "interno" in DisplayOf && DisplayOf["interno"] == "Interno"
  {
  }

  /** Whatever `normalizePersona` names, `isPersonaValue` accepts. */
  lemma NormalizedIsPersona(s: string)
    ensures NormalizePersona(s) != "" ==> IsPersonaValue(s)
  {
    if NormalizePersona(s) != "" {
      var t := Lower(Trim(s));
      AccentedNames();
      assert Personas[1] == "m\U{E9}dico" && Personas[3] == "secret\U{E1}ria";
      var i: nat := if t == Personas[0] then 0 else if t == Personas[1] then 1 else if t == Personas[2] then 2
        else if t == Personas[3] then 3 else if t == Personas[4] then 4 else 5;
      assert t == Personas[i];
      assert PersonaForm(s) == FoldMarks(Personas[i]);
    }
  }

  /**
   * A persona written with a decomposed accent (e followed by a combining
   * mark m, as in `Me\U{301}dico`) is recognised as a persona cell, yet
   * `normalizePersona` gives it no name because it only accepts the
   * precomposed letters.
   */
  lemma DecomposedPersona(m: char)
    requires IsMark(m)
    ensures IsPersonaValue("Me" + [m] + "dico")
    ensures NormalizePersona("Me" + [m] + "dico") == ""
  {
    DecomposedIsPersona(m);
    DecomposedUnnamed(m);
  }

  lemma DecomposedIsPersona(m: char)
    requires IsMark(m)
    ensures IsPersonaValue("Me" + [m] + "dico")
  {
    DecomposedLower(m);
    DecomposedFold(m);
    assert PersonaForm("Me" + [m] + "dico") == "medico";
    PersonaValueIf("Me" + [m] + "dico");
  }

  lemma DecomposedUnnamed(m: char)
    requires IsMark(m)
    ensures NormalizePersona("Me" + [m] + "dico") == ""
  {
    var t := "me" + [m] + "dico";
    DecomposedLower(m);
    assert |t| == 7 && t[0] == 'm';
  }

  lemma DecomposedLower(m: char)
    requires IsMark(m)
    ensures Lower(Trim("Me" + [m] + "dico")) == "me" + [m] + "dico"
  {
    DecomposedTrim(m);
    LowerMark(m);
    LowerMeDico();
    LowerSplice("Me", m, "dico", "me", "dico");
  }

  lemma LowerMark(m: char)
    requires IsMark(m)
    ensures LowerChar(m) == [m]
  {
  }

  /** Lower-casing a trimmed text around a character that has no case. */
  lemma LowerSplice(pre: string, c: char, post: string, lpre: string, lpost: string)
    requires LowerChar(c) == [c] && Lower(pre) == lpre && Lower(post) == lpost
    requires Trim(pre + [c] + post) == pre + [c] + post
    ensures Lower(Trim(pre + [c] + post)) == lpre + [c] + lpost
  {
    LowerAround(pre, c, post);
  }

  lemma DecomposedTrim(m: char)
    requires IsMark(m)
    ensures Trim("Me" + [m] + "dico") == "Me" + [m] + "dico"
  {
    var w := "Me" + [m] + "dico";
    assert w[0] == 'M' && w[|w| - 1] == 'o';
    TrimOfTrimmed(w);
  }

  lemma LowerMeDico()
    ensures Lower("Me") == "me" && Lower("dico") == "dico"
  {
  }

  lemma DecomposedFold(m: char)
    requires IsMark(m)
    ensures FoldMarks("me" + [m] + "dico") == "medico"
  {
    FoldAround("me", m, "dico");
    assert "me" + "dico" == "medico";
  }

  /** A combining mark between plain text is dropped. */
  lemma FoldAround(pre: string, m: char, post: string)
    requires forall i :: 0 <= i < |pre| ==> pre[i] < '\U{C0}'
    requires forall i :: 0 <= i < |post| ==> post[i] < '\U{C0}'
    requires IsMark(m)
    ensures FoldMarks(pre + [m] + post) == pre + post
  {
    FoldPlain(pre);
    FoldPlain(post);
    FoldAppend(pre, [m]);
    FoldAppend(pre + [m], post);
    assert FoldMarks([m]) == [] by {
      assert [m][1..] == [];
    }
    assert pre + [] == pre;
  }

  // ---------------------------------------------------------------------------
  // Priority cells
  // ---------------------------------------------------------------------------

  /** `parsePriority(s)`: `^\d+$` or `^P\d+$` after trimming and upper-casing. */
  function ParsePriority(s: string): (r: Option<nat>)
    ensures r.Some? ==> exists d :: IsDigits(d) && (Trim(s) == d || Trim(s) == "P" + d || Trim(s) == "p" + d) && r.value == DigitsValue(d)
  {
    var t := Upper(Trim(s));
    if IsDigits(t) then
      UpperOfDigits(Trim(s));
      Some(DigitsValue(t))
    else if |t| >= 2 && t[0] == 'P' && IsDigits(t[1..]) then
      UpperOfPrefixed(Trim(s));
      assert Trim(s) == [Trim(s)[0]] + t[1..];
      Some(DigitsValue(t[1..]))
    else None
  }

  /** Only a digit upper-cases to a digit, and it stays itself. */
  lemma UpperCharDigit(c: char)
    requires IsDigit(UpperChar(c)[0])
    ensures UpperChar(c) == [c] && IsDigit(c)
  {
  }

  /** Text whose upper-case form is all digits was that numeral already. */
  lemma {:induction false} UpperOfDigits(x: string)
    requires AllDigits(Upper(x))
    ensures Upper(x) == x
    decreases |x|
  {
    if x != [] {
      var u := Upper(x[1..]);
      assert Upper(x) == UpperChar(x[0]) + u;
      assert UpperChar(x[0])[0] == Upper(x)[0];
      UpperCharDigit(x[0]);
      assert forall i :: 0 <= i < |u| ==> u[i] == Upper(x)[i + 1];
      UpperOfDigits(x[1..]);
      ConsTail(x);
    }
  }

  /** Text whose upper-case form is `P` and digits was `P` or `p` and those digits. */
  lemma UpperOfPrefixed(x: string)
    requires |Upper(x)| >= 2 && Upper(x)[0] == 'P' && AllDigits(Upper(x)[1..])
    ensures x != [] && (x[0] == 'P' || x[0] == 'p') && x[1..] == Upper(x)[1..]
  {
    assert x != [];
    var u := Upper(x[1..]);
    assert Upper(x) == UpperChar(x[0]) + u;
    assert UpperChar(x[0])[0] == 'P';
    assert x[0] == 'P' || x[0] == 'p';
    assert Upper(x)[1..] == u;
    UpperOfDigits(x[1..]);
  }

  lemma {:induction false} UpperDigits(d: string)
    requires AllDigits(d)
    ensures Upper(d) == d
    decreases |d|
  {
    if d != [] {
      UpperDigits(d[1..]);
      assert d == [d[0]] + d[1..];
    }
  }

  /** A numeral reads back as its value. */
  lemma PriorityOfNumeral(n: nat)
    ensures ParsePriority(NatToDigits(n)) == Some(n)
  {
    DigitsValueOfNat(n);
    PriorityOfDigits(NatToDigits(n));
  }

  lemma PriorityOfDigits(d: string)
    requires IsDigits(d)
    ensures ParsePriority(d) == Some(DigitsValue(d))
  {
    TrimOfTrimmed(d);
    UpperDigits(d);
  }

  lemma UpperPrefixed(p: char, d: string)
    requires AllDigits(d)
    requires p == 'P' || p == 'p'
    ensures Upper([p] + d) == ['P'] + d
  {
    var s := [p] + d;
    assert s != [] && s[0] == p && s[1..] == d;
    assert Upper(s) == UpperChar(p) + Upper(d);
    assert UpperChar(p) == ['P'];
    UpperDigits(d);
  }

  /** A numeral after `P` or `p` reads back as its value. */
  lemma PriorityOfPrefixedNumeral(n: nat, p: char)
    requires p == 'P' || p == 'p'
    ensures ParsePriority([p] + NatToDigits(n)) == Some(n)
  {
    DigitsValueOfNat(n);
    PriorityOfPrefixedDigits(NatToDigits(n), p);
  }

  lemma PriorityOfPrefixedDigits(d: string, p: char)
    requires IsDigits(d)
    requires p == 'P' || p == 'p'
    ensures ParsePriority([p] + d) == Some(DigitsValue(d))
  {
    var t := ['P'] + d;
    PrefixedTrim(p, d);
    UpperPrefixed(p, d);
    assert Upper(Trim([p] + d)) == t;
    assert t[0] == 'P' && t[1..] == d && |t| >= 2;
    assert !IsDigits(t) by {
      assert !IsDigit(t[0]);
    }
  }

  lemma PrefixedTrim(p: char, d: string)
    requires IsDigits(d)
    requires p == 'P' || p == 'p'
    ensures Trim([p] + d) == [p] + d
  {
    var s := [p] + d;
    assert s[0] == p && s[|s| - 1] == d[|d| - 1];
    TrimOfTrimmed(s);
  }


  // ---------------------------------------------------------------------------
  // Lines
  // ---------------------------------------------------------------------------

  /** `line.match(/^###\s+(.+)$/)`, its capture trimmed. */
  function SectionTitle(line: string): (title: Option<string>)
    ensures title.Some? ==> StartsWith(line, "###") && !StartsWith(line, "|")
    ensures title.Some? ==> title.value == Trim(line[3..])
  {
    if StartsWith(line, "###") then
      assert !StartsWith(line, "|") by {
        assert line[..3][0] == '#';
      }
      var cap := SpacedRest(line[3..], 1);
      if cap.None? then None
      else
        SpacedRestTrim(line[3..], 1);
        Some(Trim(cap.value))
    else None
  }

  /**
   * The exact match condition: `###`, then a run of at least one blank that
   * `\s+` can take, then a rest free of line terminators for `(.+)$`; the
   * regex may give back all but one blank, so `###` and two blanks is a match.
   */
  lemma SectionTitleIff(line: string)
    ensures SectionTitle(line).Some? <==> (StartsWith(line, "###")
      && exists k :: 1 <= k < |line| - 3 && AllSpace(line[3..][..k]) && NoLineTerminator(line[3..][k..]))
  {
    if StartsWith(line, "###") {
      var cap := SpacedRest(line[3..], 1);
    }
  }

  /** A heading line `### ` + title gives back the title. */
  lemma SectionTitleOfHeading(title: string)
    requires title != [] && IsTrimmed(title) && NoLineTerminator(title)
    ensures SectionTitle("### " + title) == Some(title)
  {
    var line := "### " + title;
    var r := line[3..];
    assert r == [' '] + title;
    assert StartsWith(line, "###");
    assert AllSpace(r[..1]) && NoLineTerminator(r[1..]) by {
      assert r[1..] == title;
    }
    assert SpacedRest(r, 1).Some?;
    TrimAfterSpaces([' '], title);
    TrimOfTrimmed(title);
  }

  function AsciiUpper(c: char): char {
    if 'a' <= c <= 'z' then (c as int - 32) as char else c
  }

  /** `/^PREFIX-\d+$/i.test(id)` for a prefix of ASCII capitals. */
  predicate IdMatches(id: string, prefix: string) {
    |id| > |prefix| + 1
    && (forall i :: 0 <= i < |prefix| ==> AsciiUpper(id[i]) == prefix[i])
    && id[|prefix|] == '-'
    && IsDigits(id[|prefix| + 1..])
  }

  /** An id of a functional requirement is never the id of a non-functional one. */
  lemma RfIsNotRnf(id: string)
    ensures IdMatches(id, "RF") ==> !IdMatches(id, "RNF")
  {
    if IdMatches(id, "RF") {
      assert AsciiUpper(id[1]) == "RF"[1];
    }
  }

  /** `line.split('|').map(p => (p || '').trim())` */
  function Cells(line: string): seq<string> {
    var raw := Split(line, '|');
    seq(|raw|, i requires 0 <= i < |raw| => Trim(raw[i]))
  }

  /** Index of the right-most non-empty cell below hi and at index 2 or more. */
  function LastFilled(parts: seq<string>, hi: nat): (k: Option<nat>)
    requires hi <= |parts|
    ensures k.Some? ==> 2 <= k.value < hi && parts[k.value] != []
    ensures k.Some? ==> forall j :: k.value < j < hi ==> parts[j] == []
    ensures k.None? ==> forall j :: 2 <= j < hi ==> parts[j] == []
    decreases hi
  {
    if hi <= 2 then None
    else if parts[hi - 1] != [] then Some(hi - 1)
    else LastFilled(parts, hi - 1)
  }

  /** The status of a row: its right-most non-empty cell, blanks collapsed, upper-cased. */
  function Status(parts: seq<string>): string {
    match LastFilled(parts, |parts|)
    case None => ""
    case Some(k) => Upper(Trim(CollapseSpaces(parts[k])))
  }

  /** The persona cell and the explicit priority of a row, chosen by how many cells it has. */
  function Columns(parts: seq<string>): (r: (string, Option<nat>))
    requires |parts| >= 4
    ensures r.0 == "" || r.0 in DisplayNames
  {
    if |parts| >= 7 then (NormalizePersona(parts[3]), ParsePriority(parts[4]))
    else if |parts| >= 6 then
      if IsPersonaValue(parts[3]) then (NormalizePersona(parts[3]), None)
      else ("", ParsePriority(parts[3]))
    else ("", None)
  }

  // ---------------------------------------------------------------------------
  // Tables
  // ---------------------------------------------------------------------------

  /** The header text of the id column, the id prefix and the two status words of one table. */
  datatype Table = Table(idHeader: string, idPrefix: string, statusImpl: string, statusPlan: string)

  const RfTable := Table("RF", "RF", "IMPLEMENTADO", "PLANEJADO")
  const RnfTable := Table("RNF", "RNF", "IMPLEMENTADO", "PLANEJADO")

  /** One accepted row of a table. */
  datatype Row = Row(id: string, capability: string, status: string, persona: string, rawPriority: Option<nat>)

  /** A row when the line is a table row whose id cell matches the table, None otherwise. */
  function ParseRow(line: string, table: Table): (row: Option<Row>)
    ensures row.Some? ==> StartsWith(line, "|") && !StartsWith(line, "| ------") && |Cells(line)| >= 4
    ensures row.Some? ==> row.value.id == Cells(line)[1] && IdMatches(row.value.id, table.idPrefix) && row.value.id != table.idHeader
    ensures row.Some? ==> row.value.persona == "" || row.value.persona in DisplayNames
  {
    if !StartsWith(line, "|") || StartsWith(line, "| ------") then None
    else
      var parts := Cells(line);
      if |parts| < 4 || parts[1] == table.idHeader || !IdMatches(parts[1], table.idPrefix) then None
      else
        var cols := Columns(parts);
        Some(Row(parts[1], parts[2], Status(parts), cols.0, cols.1))
  }

  /**
   * The columns of an accepted row: the capability is the third part and the
   * status the last non-empty one; persona and priority depend on how many
   * parts the split gives.
   */
  lemma ParseRowColumns(line: string, table: Table)
    ensures var row := ParseRow(line, table); var parts := Cells(line);
      row.Some? ==>
        && row.value.capability == parts[2] && row.value.status == Status(parts)
        && (row.value.persona == "" || row.value.persona in DisplayNames)
        // seven parts or more: persona in the fourth, priority in the fifth
        && (|parts| >= 7 ==> row.value.persona == NormalizePersona(parts[3]) && row.value.rawPriority == ParsePriority(parts[4]))
        // exactly six: the fourth part is the persona when it reads as one, the priority otherwise
        && (|parts| == 6 && IsPersonaValue(parts[3]) ==> row.value.persona == NormalizePersona(parts[3]) && row.value.rawPriority.None?)
        && (|parts| == 6 && !IsPersonaValue(parts[3]) ==> row.value.persona == "" && row.value.rawPriority == ParsePriority(parts[3]))
        // four or five: neither
        && (|parts| < 6 ==> row.value.persona == "" && row.value.rawPriority.None?)
  {
  }

  /** The persona an item records: the row's display name, when it has one. */
  function PersonaOf(row: Row): Option<string> {
    if row.persona != "" then Some(row.persona) else None
  }

  /** A requirement in one of the two lists. */
  datatype Item = Item(id: string, capability: string, section: string, persona: Option<string>, priority: Option<nat>)

  /** The state of the scan: the current section and the two lists so far. */
  datatype Lists = Lists(section: string, impl: seq<Item>, plan: seq<Item>)

  /** What one line is to the scan: a `###` section heading, a row the table accepts, or neither. */
  datatype LineKind = Heading(title: string) | TableRow(row: Row) | Other

  /** The kind of a line: the heading test comes first, as in the loop. */
  function KindOf(line: string, table: Table): LineKind {
    match SectionTitle(line)
    case Some(title) => Heading(title)
    case None =>
      match ParseRow(line, table)
      case Some(row) => TableRow(row)
      case None => Other
  }

  /** The kinds of the lines, in order. */
  function Kinds(lines: seq<string>, table: Table): seq<LineKind> {
    seq(|lines|, j requires 0 <= j < |lines| => KindOf(lines[j], table))
  }

  /** What one line does to the scan. */
  function Step(st: Lists, k: LineKind, table: Table): Lists {
    match k
    case Heading(title) => st.(section := title)
    case TableRow(row) => Classify(st, row, table)
    case Other => st
  }

  /**
   * An accepted row joins the implemented list when its status contains the
   * implemented word, otherwise the planned list when it contains the planned
   * word, ranked by its explicit priority or else by its position; any other
   * status drops it.
   */
  function Classify(st: Lists, row: Row, table: Table): Lists {
    var persona := PersonaOf(row);
    if Contains(row.status, table.statusImpl) then
      st.(impl := st.impl + [Item(row.id, row.capability, st.section, persona, None)])
    else if Contains(row.status, table.statusPlan) then
      var p := if row.rawPriority.Some? then row.rawPriority.value else |st.plan| + 1;
      st.(plan := st.plan + [Item(row.id, row.capability, st.section, persona, Some(p))])
    else st
  }

  /** The scan over the kinds of the lines, first to last. */
  function ScanKinds(ks: seq<LineKind>, table: Table): Lists {
    if ks == [] then Lists("", [], [])
    else Step(ScanKinds(ks[..|ks| - 1], table), ks[|ks| - 1], table)
  }

  /** The scan over the lines. */
  function ScanLines(lines: seq<string>, table: Table): Lists {
    ScanKinds(Kinds(lines, table), table)
  }

  /** The rank the planned list is sorted by: `item.priority || 999`. */
  function Key(item: Item): int {
    if item.priority.None? || item.priority.value == 0 then 999 else item.priority.value
  }

  datatype RowLists = RowLists(impl: seq<Item>, plan: seq<Item>)

  /** `parseTableRows(text, ...)` */
  function TableRows(text: Value, table: Table): RowLists {
    match NonEmptyText(text)
    case None => RowLists([], [])
    case Some(t) =>
      var st := ScanLines(Split(t, '\n'), table);
      RowLists(st.impl, PlanOrder.Sort(st.plan, Key))
  }

  method ParseTableRows(text: Value, table: Table) returns (impl: seq<Item>, plan: seq<Item>)
    ensures RowLists(impl, plan) == TableRows(text, table)
  {
    impl := [];
    plan := [];
    if !text.Str? || text.s == [] {
      return;
    }
    var lines := Split(text.s, '\n');
    ghost var ks := Kinds(lines, table);
    var currentSection := "";
    for i := 0 to |lines|
      invariant Lists(currentSection, impl, plan) == ScanKinds(ks[..i], table)
    {
      assert ks[..i + 1][..i] == ks[..i];
      currentSection, impl, plan := ScanLine(lines[i], table, currentSection, impl, plan);
    }
    assert ks[..|lines|] == ks;
    plan := PlanOrder.Sort(plan, Key);
  }

  /** The body of the loop over lines: what one line does to the section and the two lists. */
  method ScanLine(line: string, table: Table, section: string, impl: seq<Item>, plan: seq<Item>)
    returns (section': string, impl': seq<Item>, plan': seq<Item>)
    ensures Lists(section', impl', plan') == Step(Lists(section, impl, plan), KindOf(line, table), table)
  {
    section', impl', plan' := section, impl, plan;
    var sectionMatch := SectionTitle(line);
    if sectionMatch.Some? && !StartsWith(line, "|") {
      section' := sectionMatch.value;
      return;
    }
    var row := ReadRow(line, table);
    KindOfRow(line, table);
    if row.None? {
      return;
    }
    impl', plan' := ClassifyRow(row.value, table, section, impl, plan);
  }

  /** Where the callback puts an accepted row: the implemented list, the planned list, or neither. */
  method ClassifyRow(r: Row, table: Table, section: string, impl: seq<Item>, plan: seq<Item>)
    returns (impl': seq<Item>, plan': seq<Item>)
    ensures Lists(section, impl', plan') == Classify(Lists(section, impl, plan), r, table)
  {
    impl', plan' := impl, plan;
    var item := Item(r.id, r.capability, section, if r.persona != "" then Some(r.persona) else None, None);
    if Contains(r.status, table.statusImpl) {
      impl' := impl + [item];
    } else if Contains(r.status, table.statusPlan) {
      item := item.(priority := Some(if r.rawPriority.Some? then r.rawPriority.value else |plan| + 1));
      plan' := plan + [item];
    }
  }

  lemma KindOfRow(line: string, table: Table)
    requires !(SectionTitle(line).Some? && !StartsWith(line, "|"))
    ensures KindOf(line, table) == if ParseRow(line, table).Some? then TableRow(ParseRow(line, table).value) else Other
  {
  }

  /** The row checks of the callback: a table line, not the separator, four parts, a matching id. */
  method ReadRow(line: string, table: Table) returns (row: Option<Row>)
    ensures row == ParseRow(line, table)
  {
    if !StartsWith(line, "|") || StartsWith(line, "| ------") {
      return None;
    }
    var parts := Cells(line);
    if |parts| < 4 {
      return None;
    }
    var id := parts[1];
    if id == table.idHeader {
      return None;
    }
    if !IdMatches(id, table.idPrefix) {
      return None;
    }
    var capability := parts[2];
    var status := RowStatus(parts);
    var persona, rawPriority := RowColumns(parts);
    RowAccepted(line, table);
    row := Some(Row(id, capability, status, persona, rawPriority));
  }

  /** The persona and priority columns, chosen by the number of parts. */
  method RowColumns(parts: seq<string>) returns (persona: string, rawPriority: Option<nat>)
    requires |parts| >= 4
    ensures (persona, rawPriority) == Columns(parts)
  {
    persona := "";
    if |parts| >= 7 {
      persona := NormalizePersona(parts[3]);
      rawPriority := ParsePriority(parts[4]);
    } else if |parts| >= 6 {
      if IsPersonaValue(parts[3]) {
        persona := NormalizePersona(parts[3]);
        rawPriority := None;
      } else {
        rawPriority := ParsePriority(parts[3]);
      }
    } else {
      rawPriority := None;
    }
  }

  lemma RowAccepted(line: string, table: Table)
    requires StartsWith(line, "|") && !StartsWith(line, "| ------")
    requires |Cells(line)| >= 4 && Cells(line)[1] != table.idHeader && IdMatches(Cells(line)[1], table.idPrefix)
    ensures ParseRow(line, table) == Some(Row(Cells(line)[1], Cells(line)[2], Status(Cells(line)), Columns(Cells(line)).0, Columns(Cells(line)).1))
  {
  }

  /** The backward scan for the status cell. */
  method RowStatus(parts: seq<string>) returns (status: string)
    requires |parts| >= 1
    ensures status == Status(parts)
  {
    status := "";
    var k := |parts| - 1;
    while k >= 2
      invariant 1 <= k < |parts| || (k == 0 && |parts| == 1)
      invariant LastFilled(parts, k + 1) == LastFilled(parts, |parts|)
      invariant status == ""
      decreases k
    {
      if parts[k] != "" {
        status := Upper(Trim(CollapseSpaces(parts[k])));
        break;
      }
      k := k - 1;
    }
  }

  /** `parsePrdRfLists(text)`: the functional-requirement table. */
  method ParsePrdRfLists(text: Value) returns (rfImpl: seq<Item>, rfPlan: seq<Item>)
    ensures RowLists(rfImpl, rfPlan) == TableRows(text, RfTable)
  {
    rfImpl, rfPlan := ParseTableRows(text, RfTable);
  }

  /** `parsePrdRnfLists(text)`: the non-functional-requirement table. */
  method ParsePrdRnfLists(text: Value) returns (rnfImpl: seq<Item>, rnfPlan: seq<Item>)
    ensures RowLists(rnfImpl, rnfPlan) == TableRows(text, RnfTable)
  {
    rnfImpl, rnfPlan := ParseTableRows(text, RnfTable);
  }

  // ---------------------------------------------------------------------------
  // Properties of the two lists
  // ---------------------------------------------------------------------------

  /** An item of either list: its id matches the table and is not the header, its persona is a display name. */
  predicate ItemOk(it: Item, table: Table) {
    IdMatches(it.id, table.idPrefix) && it.id != table.idHeader
    && (it.persona.Some? ==> it.persona.value in DisplayNames)
  }

  /** Implemented items carry no priority; planned items always carry one. */
  predicate ListsOk(impl: seq<Item>, plan: seq<Item>, table: Table) {
    (forall it :: it in impl ==> ItemOk(it, table) && it.priority.None?)
    && (forall it :: it in plan ==> ItemOk(it, table) && it.priority.Some?)
  }

  /** A row the table accepts: its id matches and is not the header, its persona is a display name or empty. */
  predicate RowOk(row: Row, table: Table) {
    IdMatches(row.id, table.idPrefix) && row.id != table.idHeader
    && (row.persona == "" || row.persona in DisplayNames)
  }

  lemma KindsOk(lines: seq<string>, table: Table)
    ensures forall j :: 0 <= j < |lines| && Kinds(lines, table)[j].TableRow? ==> RowOk(Kinds(lines, table)[j].row, table)
  {
    var ks := Kinds(lines, table);
    forall j | 0 <= j < |lines| && ks[j].TableRow? ensures RowOk(ks[j].row, table) {
      assert ks[j] == KindOf(lines[j], table);
    }
  }

  lemma {:induction false} ScanKindsOk(ks: seq<LineKind>, table: Table)
    requires forall j :: 0 <= j < |ks| && ks[j].TableRow? ==> RowOk(ks[j].row, table)
    ensures ListsOk(ScanKinds(ks, table).impl, ScanKinds(ks, table).plan, table)
    decreases |ks|
  {
    if ks != [] {
      var init := ks[..|ks| - 1];
      assert forall j :: 0 <= j < |init| ==> init[j] == ks[j];
      ScanKindsOk(init, table);
      var k := ks[|ks| - 1];
      if k.TableRow? {
        ClassifyOk(ScanKinds(init, table), k.row, table);
      }
    }
  }

  lemma ClassifyOk(st: Lists, row: Row, table: Table)
    requires ListsOk(st.impl, st.plan, table)
    requires RowOk(row, table)
    ensures ListsOk(Classify(st, row, table).impl, Classify(st, row, table).plan, table)
  {
    var persona := if row.persona != "" then Some(row.persona) else None;
    var st' := Classify(st, row, table);
    assert forall p :: ItemOk(Item(row.id, row.capability, st.section, persona, p), table);
    if Contains(row.status, table.statusImpl) {
      assert st'.impl == st.impl + [Item(row.id, row.capability, st.section, persona, None)];
      assert st'.plan == st.plan;
    } else if Contains(row.status, table.statusPlan) {
      var p := if row.rawPriority.Some? then row.rawPriority.value else |st.plan| + 1;
      assert st'.plan == st.plan + [Item(row.id, row.capability, st.section, persona, Some(p))];
      assert st'.impl == st.impl;
    }
  }

  /** Both lists hold only rows of the table, implemented ones without and planned ones with a priority. */
  lemma TableRowsOk(text: Value, table: Table)
    ensures ListsOk(TableRows(text, table).impl, TableRows(text, table).plan, table)
  {
    if NonEmptyText(text).Some? {
      var lines := Split(text.s, '\n');
      var st := ScanLines(lines, table);
      KindsOk(lines, table);
      ScanKindsOk(Kinds(lines, table), table);
      PlanOrder.SortSortedPermutation(st.plan, Key);
      var sorted := PlanOrder.Sort(st.plan, Key);
      forall it | it in sorted ensures it in st.plan {
        assert it in multiset(sorted);
      }
    }
  }

  /** The functional-requirement lists hold no non-functional id, and the other way round. */
  lemma RfRnfDisjoint(text: Value)
    ensures forall it :: it in TableRows(text, RfTable).impl + TableRows(text, RfTable).plan ==> !IdMatches(it.id, "RNF")
    ensures forall it :: it in TableRows(text, RnfTable).impl + TableRows(text, RnfTable).plan ==> !IdMatches(it.id, "RF")
  {
    TableRowsOk(text, RfTable);
    TableRowsOk(text, RnfTable);
    forall id: string ensures IdMatches(id, "RF") ==> !IdMatches(id, "RNF") {
      RfIsNotRnf(id);
    }
  }

  /**
   * The planned list comes out ordered by `priority || 999`, holds exactly
   * the planned rows, and rows of equal rank keep their order in the document.
   */
  lemma PlanRanked(text: Value, table: Table, v: int)
    requires NonEmptyText(text).Some?
    ensures PlanOrder.SortedBy(TableRows(text, table).plan, Key)
    ensures multiset(TableRows(text, table).plan) == multiset(ScanLines(Split(text.s, '\n'), table).plan)
    ensures PlanOrder.WithKey(TableRows(text, table).plan, Key, v) == PlanOrder.WithKey(ScanLines(Split(text.s, '\n'), table).plan, Key, v)
  {
    var collected := ScanLines(Split(text.s, '\n'), table).plan;
    PlanOrder.SortSortedPermutation(collected, Key);
    PlanOrder.SortStable(collected, Key, v);
  }

  /** A row with no explicit priority. */
  predicate NoExplicitPriority(line: string, table: Table) {
    ParseRow(line, table).Some? ==> ParseRow(line, table).value.rawPriority.None?
  }

  lemma {:induction false} PositionalRanks(ks: seq<LineKind>, table: Table)
    requires forall j :: 0 <= j < |ks| && ks[j].TableRow? ==> ks[j].row.rawPriority.None?
    ensures forall k :: 0 <= k < |ScanKinds(ks, table).plan| ==> ScanKinds(ks, table).plan[k].priority == Some(k + 1)
    decreases |ks|
  {
    if ks != [] {
      var init := ks[..|ks| - 1];
      assert forall j :: 0 <= j < |init| ==> init[j] == ks[j];
      PositionalRanks(init, table);
      var k := ks[|ks| - 1];
      if k.TableRow? {
        PositionalClassify(ScanKinds(init, table), k.row, table);
      }
    }
  }

  lemma PositionalClassify(st: Lists, row: Row, table: Table)
    requires row.rawPriority.None?
    requires forall k :: 0 <= k < |st.plan| ==> st.plan[k].priority == Some(k + 1)
    ensures forall k :: 0 <= k < |Classify(st, row, table).plan| ==> Classify(st, row, table).plan[k].priority == Some(k + 1)
  {
    var persona := if row.persona != "" then Some(row.persona) else None;
    var st' := Classify(st, row, table);
    if !Contains(row.status, table.statusImpl) && Contains(row.status, table.statusPlan) {
      var x := Item(row.id, row.capability, st.section, persona, Some(|st.plan| + 1));
      assert st'.plan == st.plan + [x];
    } else {
      assert st'.plan == st.plan;
    }
  }

  /**
   * When no planned row names its priority, each planned item is ranked by
   * its position among the planned rows (1, 2, ...), and sorting keeps that order.
   */
  lemma PositionalPlan(text: Value, table: Table)
    requires NonEmptyText(text).Some?
    requires forall j :: 0 <= j < |Split(text.s, '\n')| ==> NoExplicitPriority(Split(text.s, '\n')[j], table)
    ensures TableRows(text, table).plan == ScanLines(Split(text.s, '\n'), table).plan
    ensures forall k :: 0 <= k < |TableRows(text, table).plan| ==> TableRows(text, table).plan[k].priority == Some(k + 1)
  {
    var lines := Split(text.s, '\n');
    var ks := Kinds(lines, table);
    var collected := ScanLines(lines, table).plan;
    forall j | 0 <= j < |ks| && ks[j].TableRow? ensures ks[j].row.rawPriority.None? {
      assert NoExplicitPriority(lines[j], table);
    }
    PositionalRanks(ks, table);
    assert forall k :: 0 <= k < |collected| ==> Key(collected[k]) == k + 1;
    PlanOrder.SortOfSorted(collected, Key);
  }

  /** No text, or a value that is not a non-empty string, gives two empty lists. */
  lemma NoTextNoRows(text: Value)
    requires NonEmptyText(text).None?
    ensures TableRows(text, RfTable) == RowLists([], []) && TableRows(text, RnfTable) == RowLists([], [])
  {
  }

  // ---------------------------------------------------------------------------
  // The scan, line by line: sections, accepted rows and their classification
  // ---------------------------------------------------------------------------

  /** A line's kind: `###` headings first, then the rows the table accepts. */
  lemma KindOfLine(line: string, table: Table)
    ensures KindOf(line, table).Heading? <==> SectionTitle(line).Some?
    ensures KindOf(line, table).Heading? ==> KindOf(line, table).title == SectionTitle(line).value
    ensures KindOf(line, table).TableRow? <==> SectionTitle(line).None? && ParseRow(line, table).Some?
    ensures KindOf(line, table).TableRow? ==> KindOf(line, table).row == ParseRow(line, table).value
  {
  }

  /** The section in force after the lines: the title of the last heading, "" when there is none. */
  function LastSection(ks: seq<LineKind>): string {
    if ks == [] then ""
    else
      match ks[|ks| - 1]
      case Heading(title) => title
      case _ => LastSection(ks[..|ks| - 1])
  }

  /** With no heading line, no section is in force. */
  lemma {:induction false} NoHeadingNoSection(ks: seq<LineKind>)
    requires forall j :: 0 <= j < |ks| ==> !ks[j].Heading?
    ensures LastSection(ks) == ""
    decreases |ks|
  {
    if ks != [] {
      var n := |ks| - 1;
      assert !ks[n].Heading?;
      var init := ks[..n];
      assert forall j :: 0 <= j < n ==> init[j] == ks[j];
      NoHeadingNoSection(init);
    }
  }

  /** The section in force is the title of the heading at index k, when no heading follows it. */
  lemma {:induction false} LatestHeading(ks: seq<LineKind>, k: nat)
    requires k < |ks| && ks[k].Heading?
    requires forall j :: k < j < |ks| ==> !ks[j].Heading?
    ensures LastSection(ks) == ks[k].title
    decreases |ks|
  {
    if k + 1 < |ks| {
      var init := ks[..|ks| - 1];
      assert init[k] == ks[k];
      assert forall j :: k < j < |init| ==> init[j] == ks[j];
      assert !ks[|ks| - 1].Heading?;
      LatestHeading(init, k);
    }
  }

  /** An accepted table row, with the index of its line and the section in force at that line. */
  datatype Placed = Placed(line: nat, row: Row, section: string)

  /** The rows the table accepts, in document order, each under the section in force at its line. */
  function RowsOf(ks: seq<LineKind>): seq<Placed> {
    if ks == [] then []
    else
      var j := |ks| - 1;
      RowsOf(ks[..j]) + (if ks[j].TableRow? then [Placed(j, ks[j].row, LastSection(ks[..j]))] else [])
  }

  /** Where an entry of RowsOf comes from: a line the table accepts, under the section in force there. */
  predicate FromLine(ks: seq<LineKind>, p: Placed) {
    p.line < |ks| && ks[p.line] == TableRow(p.row) && p.section == LastSection(ks[..p.line])
  }

  /** An entry taken from a prefix of the lines still comes from the same line of the whole text. */
  lemma FromLineExtend(ks: seq<LineKind>, n: nat, p: Placed)
    requires n <= |ks| && FromLine(ks[..n], p)
    ensures FromLine(ks, p)
  {
    assert ks[..n][..p.line] == ks[..p.line];
  }

  /** The rows a line adds to RowsOf. */
  lemma RowsOfSnoc(ks: seq<LineKind>)
    requires ks != []
    ensures var n := |ks| - 1;
      RowsOf(ks) == RowsOf(ks[..n]) + (if ks[n].TableRow? then [Placed(n, ks[n].row, LastSection(ks[..n]))] else [])
  {
  }

  /** Every row comes from a line the table accepts and carries the section in force there. */
  lemma {:induction false} RowsOfOrigin(ks: seq<LineKind>)
    ensures forall i :: 0 <= i < |RowsOf(ks)| ==> FromLine(ks, RowsOf(ks)[i])
    decreases |ks|
  {
    if ks != [] {
      var n := |ks| - 1;
      RowsOfOrigin(ks[..n]);
      RowsOfSnoc(ks);
      var a := RowsOf(ks[..n]);
      var r := RowsOf(ks);
      forall i | 0 <= i < |r| ensures FromLine(ks, r[i]) {
        if i < |a| {
          assert r[i] == a[i];
          FromLineExtend(ks, n, a[i]);
        }
      }
    }
  }

  lemma {:induction false} RowsOfLines(ks: seq<LineKind>)
    ensures forall i :: 0 <= i < |RowsOf(ks)| ==> RowsOf(ks)[i].line < |ks|
    decreases |ks|
  {
    if ks != [] {
      RowsOfLines(ks[..|ks| - 1]);
      RowsOfSnoc(ks);
    }
  }

  /** The rows come in the order of their lines, one row per line. */
  lemma {:induction false} RowsOfOrder(ks: seq<LineKind>)
    ensures forall i, i' :: 0 <= i < i' < |RowsOf(ks)| ==> RowsOf(ks)[i].line < RowsOf(ks)[i'].line
    decreases |ks|
  {
    if ks != [] {
      var n := |ks| - 1;
      RowsOfOrder(ks[..n]);
      RowsOfLines(ks[..n]);
      RowsOfSnoc(ks);
      var a := RowsOf(ks[..n]);
      var r := RowsOf(ks);
      assert forall i :: 0 <= i < |a| ==> r[i] == a[i];
    }
  }

  /** Some entry comes from line j. */
  predicate HasLine(ps: seq<Placed>, j: nat) {
    exists i :: 0 <= i < |ps| && ps[i].line == j
  }

  lemma HasLinePrefix(a: seq<Placed>, r: seq<Placed>, j: nat)
    requires |a| <= |r| && a == r[..|a|] && HasLine(a, j)
    ensures HasLine(r, j)
  {
    var i :| 0 <= i < |a| && a[i].line == j;
    assert r[i] == a[i];
  }

  /** Every line the table accepts contributes a row. */
  lemma {:induction false} RowsOfComplete(ks: seq<LineKind>)
    ensures forall j :: 0 <= j < |ks| && ks[j].TableRow? ==> HasLine(RowsOf(ks), j)
    decreases |ks|
  {
    if ks != [] {
      var n := |ks| - 1;
      var init := ks[..n];
      RowsOfComplete(init);
      RowsOfSnoc(ks);
      var a := RowsOf(init);
      var r := RowsOf(ks);
      assert a == r[..|a|];
      forall j | 0 <= j < |ks| && ks[j].TableRow? ensures HasLine(r, j) {
        if j < n {
          assert init[j] == ks[j];
          HasLinePrefix(a, r, j);
        } else {
          assert r[|r| - 1].line == j;
        }
      }
    }
  }

  /** A status with the implemented word. */
  predicate Implemented(row: Row, table: Table) {
    Contains(row.status, table.statusImpl)
  }

  /** A status with the planned word and without the implemented one. */
  predicate Planned(row: Row, table: Table) {
    !Contains(row.status, table.statusImpl) && Contains(row.status, table.statusPlan)
  }

  /** The implemented rows, in order. */
  function ImplRows(ps: seq<Placed>, table: Table): seq<Placed> {
    if ps == [] then []
    else ImplRows(ps[..|ps| - 1], table) + (if Implemented(ps[|ps| - 1].row, table) then [ps[|ps| - 1]] else [])
  }

  /** The planned rows, in order. */
  function PlanRows(ps: seq<Placed>, table: Table): seq<Placed> {
    if ps == [] then []
    else PlanRows(ps[..|ps| - 1], table) + (if Planned(ps[|ps| - 1].row, table) then [ps[|ps| - 1]] else [])
  }

  /** The implemented list's items: id, capability, section and persona of each row, no priority. */
  function ImplItems(ps: seq<Placed>): seq<Item> {
    seq(|ps|, k requires 0 <= k < |ps| => Item(ps[k].row.id, ps[k].row.capability, ps[k].section, PersonaOf(ps[k].row), None))
  }

  /** The planned list's items: the k-th carries its row's explicit priority, or else k + 1. */
  function PlanItems(ps: seq<Placed>): seq<Item> {
    seq(|ps|, k requires 0 <= k < |ps| =>
      Item(ps[k].row.id, ps[k].row.capability, ps[k].section, PersonaOf(ps[k].row),
           Some(if ps[k].row.rawPriority.Some? then ps[k].row.rawPriority.value else k + 1)))
  }

  lemma ImplItemsSnoc(ps: seq<Placed>, p: Placed)
    ensures ImplItems(ps + [p]) == ImplItems(ps) + [Item(p.row.id, p.row.capability, p.section, PersonaOf(p.row), None)]
  {
    assert forall k :: 0 <= k < |ps| ==> (ps + [p])[k] == ps[k];
  }

  lemma PlanItemsSnoc(ps: seq<Placed>, p: Placed)
    ensures PlanItems(ps + [p]) == PlanItems(ps)
      + [Item(p.row.id, p.row.capability, p.section, PersonaOf(p.row),
              Some(if p.row.rawPriority.Some? then p.row.rawPriority.value else |ps| + 1))]
  {
    assert forall k :: 0 <= k < |ps| ==> (ps + [p])[k] == ps[k];
  }

  lemma FiltersSnoc(ps: seq<Placed>, p: Placed, table: Table)
    ensures ImplRows(ps + [p], table) == ImplRows(ps, table) + (if Implemented(p.row, table) then [p] else [])
    ensures PlanRows(ps + [p], table) == PlanRows(ps, table) + (if Planned(p.row, table) then [p] else [])
  {
    assert (ps + [p])[..|ps|] == ps;
  }

  /** The scan's section is the title of the last heading line. */
  lemma {:induction false} ScanSection(ks: seq<LineKind>, table: Table)
    ensures ScanKinds(ks, table).section == LastSection(ks)
    decreases |ks|
  {
    if ks != [] {
      ScanSection(ks[..|ks| - 1], table);
    }
  }

  /** The implemented list is the implemented rows, in document order, under their sections. */
  lemma {:induction false} ScanImpl(ks: seq<LineKind>, table: Table)
    ensures ScanKinds(ks, table).impl == ImplItems(ImplRows(RowsOf(ks), table))
    decreases |ks|
  {
    if ks != [] {
      var n := |ks| - 1;
      var init := ks[..n];
      ScanImpl(init, table);
      ScanSection(init, table);
      RowsOfSnoc(ks);
      var a := RowsOf(init);
      if ks[n].TableRow? {
        var p := Placed(n, ks[n].row, LastSection(init));
        FiltersSnoc(a, p, table);
        ImplItemsSnoc(ImplRows(a, table), p);
      } else {
        assert RowsOf(ks) == a + [];
        assert a + [] == a;
      }
    }
  }

  /** The planned list, before sorting, is the planned rows in document order, ranked explicitly or by position. */
  lemma {:induction false} ScanPlan(ks: seq<LineKind>, table: Table)
    ensures ScanKinds(ks, table).plan == PlanItems(PlanRows(RowsOf(ks), table))
    decreases |ks|
  {
    if ks != [] {
      var n := |ks| - 1;
      var init := ks[..n];
      ScanPlan(init, table);
      ScanSection(init, table);
      RowsOfSnoc(ks);
      var a := RowsOf(init);
      if ks[n].TableRow? {
        var p := Placed(n, ks[n].row, LastSection(init));
        FiltersSnoc(a, p, table);
        PlanItemsSnoc(PlanRows(a, table), p);
      } else {
        assert RowsOf(ks) == a + [];
        assert a + [] == a;
      }
    }
  }

  /** A row goes to the implemented list exactly when its status holds the implemented word. */
  lemma {:induction false} ImplRowsIff(ps: seq<Placed>, table: Table, p: Placed)
    ensures p in ImplRows(ps, table) <==> p in ps && Implemented(p.row, table)
    decreases |ps|
  {
    if ps != [] {
      var init := ps[..|ps| - 1];
      ImplRowsIff(init, table, p);
      assert ps == init + [ps[|ps| - 1]];
    }
  }

  /** A row goes to the planned list exactly when its status holds the planned word and not the implemented one. */
  lemma {:induction false} PlanRowsIff(ps: seq<Placed>, table: Table, p: Placed)
    ensures p in PlanRows(ps, table) <==> p in ps && Planned(p.row, table)
    decreases |ps|
  {
    if ps != [] {
      var init := ps[..|ps| - 1];
      PlanRowsIff(init, table, p);
      assert ps == init + [ps[|ps| - 1]];
    }
  }

  /** Filtering keeps document order: the rows of a prefix come first. */
  lemma FiltersAppend(a: seq<Placed>, b: seq<Placed>, table: Table)
    ensures ImplRows(a + b, table) == ImplRows(a, table) + ImplRows(b, table)
    ensures PlanRows(a + b, table) == PlanRows(a, table) + PlanRows(b, table)
  {
    ImplRowsAppend(a, b, table);
    PlanRowsAppend(a, b, table);
  }

  lemma {:induction false} ImplRowsAppend(a: seq<Placed>, b: seq<Placed>, table: Table)
    ensures ImplRows(a + b, table) == ImplRows(a, table) + ImplRows(b, table)
    decreases |b|
  {
    if b == [] {
      assert a + b == a;
    } else {
      var b', x := b[..|b| - 1], b[|b| - 1];
      SnocSplit(a, b);
      ImplRowsAppend(a, b', table);
      FiltersSnoc(a + b', x, table);
      FiltersSnoc(b', x, table);
      ConcatAssoc(ImplRows(a, table), ImplRows(b', table), if Implemented(x.row, table) then [x] else []);
    }
  }

  lemma {:induction false} PlanRowsAppend(a: seq<Placed>, b: seq<Placed>, table: Table)
    ensures PlanRows(a + b, table) == PlanRows(a, table) + PlanRows(b, table)
    decreases |b|
  {
    if b == [] {
      assert a + b == a;
    } else {
      var b', x := b[..|b| - 1], b[|b| - 1];
      SnocSplit(a, b);
      PlanRowsAppend(a, b', table);
      FiltersSnoc(a + b', x, table);
      FiltersSnoc(b', x, table);
      ConcatAssoc(PlanRows(a, table), PlanRows(b', table), if Planned(x.row, table) then [x] else []);
    }
  }

  /**
   * `parseTableRows` line by line: the implemented list is the implemented
   * rows and the planned list the planned rows sorted by rank, each item under
   * the section in force at its line; a planned item's priority is its row's
   * explicit one, or else one more than the number of planned rows before it.
   */
  lemma TableRowsSpec(text: Value, table: Table)
    requires NonEmptyText(text).Some?
    ensures var rows := RowsOf(Kinds(Split(text.s, '\n'), table));
      && TableRows(text, table).impl == ImplItems(ImplRows(rows, table))
      && TableRows(text, table).plan == PlanOrder.Sort(PlanItems(PlanRows(rows, table)), Key)
  {
    var ks := Kinds(Split(text.s, '\n'), table);
    ScanImpl(ks, table);
    ScanPlan(ks, table);
  }

}
