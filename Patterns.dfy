/**
 * Hand-written recognisers for the regular expressions of the parsers.
 *
 * Two shapes recur. The tail `\s*(.+)$` / `\s+(.+)$` of the heading regexes is
 * `SpacedRest`. The summary-counter regexes (`\*\*Total RFs\*\*\s*\|...`,
 * `totalEpics:\s*(\d+)`) are sequences of literals, `\s*` runs and `(\d+)`
 * captures; every `\s*` in them is followed by a character that is not
 * whitespace and every `\d+` by one that is not a digit, so greedy matching
 * without backtracking finds exactly what the regex engine finds. `FirstMatch`
 * is `String.prototype.match` without the `g` flag: the leftmost match.
 */
module Patterns {

  import opened Options
  import opened Text

  /**
   * `\s{min,}(.+)$` without the multiline flag, at the start of r: the regex
   * matches when some split r == w + x has at least `min` whitespace
   * characters in w and a non-empty x free of line terminators; the capture is
   * the x of the greediest such split.
   */
  function SpacedRest(r: string, min: nat): (cap: Option<string>)
    ensures cap.Some? <==> exists k :: min <= k < |r| && AllSpace(r[..k]) && NoLineTerminator(r[k..])
    ensures cap.Some? ==> 1 <= |cap.value| <= |r| - min && cap.value == r[|r| - |cap.value|..]
    ensures cap.Some? ==> AllSpace(r[..|r| - |cap.value|]) && NoLineTerminator(cap.value)
    ensures cap.Some? ==> forall k :: |r| - |cap.value| < k < |r| ==> !AllSpace(r[..k])
  {
    var w := LeadingSpaces(r);
    if w < min || |r| == 0 then
      assert forall k :: min <= k < |r| ==> !AllSpace(r[..k]) by {
        forall k | min <= k < |r| ensures !AllSpace(r[..k]) {
          assert r[..k][w] == r[w];
        }
      }
      None
    else
      var k := if w < |r| then w else |r| - 1;
      assert AllSpace(r[..k]) by { assert r[..k] == r[..w][..k]; }
      assert forall k' :: k < k' < |r| ==> !AllSpace(r[..k']) by {
        forall k' | k < k' < |r| ensures !AllSpace(r[..k']) {
          assert r[..k'][w] == r[w];
        }
      }
      if k >= min && NoLineTerminator(r[k..]) then Some(r[k..])
      else
        assert forall j :: min <= j < |r| && AllSpace(r[..j]) ==> !NoLineTerminator(r[j..]) by {
          forall j | min <= j < |r| && AllSpace(r[..j]) ensures !NoLineTerminator(r[j..]) {
            if j < k {
              var i :| 0 <= i < |r[k..]| && IsLineTerminator(r[k..][i]);
              assert r[j..][k - j + i] == r[k..][i];
            }
          }
        }
        None
  }

  /** What `trim` makes of a `SpacedRest` capture is what it makes of the whole tail. */
  lemma SpacedRestTrim(r: string, min: nat)
    requires SpacedRest(r, min).Some?
    ensures Trim(SpacedRest(r, min).value) == Trim(r)
  {
    var x := SpacedRest(r, min).value;
    var w := r[..|r| - |x|];
    assert r == w + x;
    TrimAfterSpaces(w, x);
  }

  // ---------------------------------------------------------------------------
  // Literal / `\s*` / `(\d+)` patterns
  // ---------------------------------------------------------------------------

  datatype Token = Lit(text: string) | Spaces | Digits

  function DigitsCount(pat: seq<Token>): nat {
    if pat == [] then 0 else (if pat[0].Digits? then 1 else 0) + DigitsCount(pat[1..])
  }

  /** The pattern matched at offset p of t: the `(\d+)` captures, in order. */
  function MatchAt(t: string, p: nat, pat: seq<Token>): (caps: Option<seq<string>>)
    requires p <= |t|
    ensures caps.Some? ==> |caps.value| == DigitsCount(pat)
    ensures caps.Some? ==> forall i :: 0 <= i < |caps.value| ==> IsDigits(caps.value[i])
    decreases |pat|
  {
    if pat == [] then Some([])
    else match pat[0]
      case Lit(s) =>
        if StartsWith(t[p..], s) then MatchAt(t, p + |s|, pat[1..]) else None
      case Spaces =>
        MatchAt(t, p + LeadingSpaces(t[p..]), pat[1..])
      case Digits =>
        var n := LeadingDigits(t[p..]);
        if n == 0 then None
        else match MatchAt(t, p + n, pat[1..])
          case None => None
          case Some(rest) =>
            assert t[p..p + n] == t[p..][..n];
            Some([t[p..p + n]] + rest)
  }

  /**
   * The offset at which `t.match(re)` (no `g` flag) finds its match, searching
   * from `from`: the leftmost offset where the pattern matches, if any.
   */
  function FirstOffset(t: string, pat: seq<Token>, from: nat): (p: Option<nat>)
    requires from <= |t|
    ensures p.Some? ==> from <= p.value <= |t| && MatchAt(t, p.value, pat).Some?
    ensures p.Some? ==> forall q :: from <= q < p.value ==> MatchAt(t, q, pat).None?
    ensures p.None? ==> forall q :: from <= q <= |t| ==> MatchAt(t, q, pat).None?
    decreases |t| - from
  {
    if MatchAt(t, from, pat).Some? then Some(from)
    else if from == |t| then None
    else FirstOffset(t, pat, from + 1)
  }

  /** The captures of `t.match(re)`, or None when the regex matches nowhere. */
  function FirstMatch(t: string, pat: seq<Token>): (caps: Option<seq<string>>)
    ensures caps.Some? ==> |caps.value| == DigitsCount(pat)
    ensures caps.Some? ==> forall i :: 0 <= i < |caps.value| ==> IsDigits(caps.value[i])
    ensures caps.None? <==> forall q :: 0 <= q <= |t| ==> MatchAt(t, q, pat).None?
  {
    match FirstOffset(t, pat, 0)
    case None => None
    case Some(p) =>
      assert MatchAt(t, p, pat).Some? && 0 <= p <= |t|;
      MatchAt(t, p, pat)
  }

  /** A match at p with none before it is the one `t.match(re)` reports. */
  lemma {:induction false} FirstOffsetAt(t: string, pat: seq<Token>, from: nat, p: nat)
    requires from <= p <= |t| && MatchAt(t, p, pat).Some?
    requires forall q :: from <= q < p ==> MatchAt(t, q, pat).None?
    ensures FirstOffset(t, pat, from) == Some(p)
    decreases p - from
  {
    if from < p {
      FirstOffsetAt(t, pat, from + 1, p);
    }
  }

  lemma FirstMatchAt(t: string, pat: seq<Token>, p: nat)
    requires p <= |t| && MatchAt(t, p, pat).Some?
    requires forall q :: 0 <= q < p ==> MatchAt(t, q, pat).None?
    ensures FirstMatch(t, pat) == MatchAt(t, p, pat)
  {
    FirstOffsetAt(t, pat, 0, p);
  }

  // ---------------------------------------------------------------------------
  // Rendering a pattern: the inverse of MatchAt
  // ---------------------------------------------------------------------------

  function SpacesCount(pat: seq<Token>): nat {
    if pat == [] then 0 else (if pat[0].Spaces? then 1 else 0) + SpacesCount(pat[1..])
  }

  /**
   * The text a pattern stands for: its literals as they are, the whitespace run
   * ws[j] for its j-th `\s*` and the numeral caps[i] for its i-th `(\d+)`.
   */
  function Render(pat: seq<Token>, caps: seq<string>, ws: seq<string>): string
    requires |caps| == DigitsCount(pat) && |ws| == SpacesCount(pat)
    decreases |pat|
  {
    if pat == [] then []
    else match pat[0]
      case Lit(s) => s + Render(pat[1..], caps, ws)
      case Spaces => ws[0] + Render(pat[1..], caps, ws[1..])
      case Digits => caps[0] + Render(pat[1..], caps[1..], ws)
  }

  /** Runs a `\s*` can take: whitespace only, possibly empty. */
  predicate Blanks(ws: seq<string>) {
    forall j :: 0 <= j < |ws| ==> AllSpace(ws[j])
  }

  /**
   * Every `\s*` is followed by a `(\d+)` or a literal that starts with a non-blank, and
   * every `(\d+)` by a literal that starts with a non-digit, or ends the pattern.
   */
  predicate Separated(pat: seq<Token>) {
    forall i :: 0 <= i < |pat| ==> SeparatedAt(pat, i)
  }

  predicate SeparatedAt(pat: seq<Token>, i: nat)
    requires i < |pat|
  {
    && (pat[i].Lit? ==> pat[i].text != [])
    && (pat[i].Spaces? ==> i + 1 < |pat| && (pat[i + 1].Digits? || (pat[i + 1].Lit? && pat[i + 1].text != [] && !IsSpace(pat[i + 1].text[0]))))
    && (pat[i].Digits? && i + 1 < |pat| ==> pat[i + 1].Lit? && pat[i + 1].text != [] && !IsDigit(pat[i + 1].text[0]))
  }

  /**
   * r is the rendering of pat with the numerals caps and the whitespace runs
   * ws, then post; after a final `(\d+)`, post does not start with a digit,
   * since the greedy capture would have taken it.
   */
  predicate Rendering(r: string, pat: seq<Token>, caps: seq<string>, ws: seq<string>, post: string) {
    && |caps| == DigitsCount(pat) && |ws| == SpacesCount(pat)
    && (forall i :: 0 <= i < |caps| ==> IsDigits(caps[i]))
    && Blanks(ws)
    && (pat != [] && pat[|pat| - 1].Digits? ==> post == [] || !IsDigit(post[0]))
    && r == Render(pat, caps, ws) + post
  }

  /** From offset p on, t holds a rendering of pat. */
  predicate RenderedAt(t: string, p: nat, pat: seq<Token>, caps: seq<string>, ws: seq<string>, post: string) {
    p <= |t| && Rendering(t[p..], pat, caps, ws, post)
  }

  /**
   * The pattern matches at p with the captures caps exactly when the text from
   * p on is the pattern rendered with caps and some whitespace runs, followed by
   * anything a final `(\d+)` cannot extend.
   */
  lemma MatchAtIff(t: string, p: nat, pat: seq<Token>, caps: seq<string>)
    requires Separated(pat) && p <= |t|
    ensures MatchAt(t, p, pat) == Some(caps) <==> exists ws, post :: RenderedAt(t, p, pat, caps, ws, post)
  {
    if MatchAt(t, p, pat) == Some(caps) {
      var ws, post := MatchShape(t, p, pat);
    }
    if exists ws, post :: RenderedAt(t, p, pat, caps, ws, post) {
      var ws, post :| RenderedAt(t, p, pat, caps, ws, post);
      MatchRendered(t, p, pat, caps, ws, post);
    }
  }

  /** `t.match(re)` is null exactly when no offset holds a rendering of the pattern, however spaced. */
  lemma FirstMatchNone(t: string, pat: seq<Token>)
    requires Separated(pat)
    ensures FirstMatch(t, pat).None? <==> forall p, caps, ws, post :: !RenderedAt(t, p, pat, caps, ws, post)
  {
    if FirstMatch(t, pat).None? {
      forall p, caps, ws, post | RenderedAt(t, p, pat, caps, ws, post) ensures false {
        MatchRendered(t, p, pat, caps, ws, post);
      }
    } else {
      var p :| 0 <= p <= |t| && MatchAt(t, p, pat).Some?;
      var ws, post := MatchShape(t, p, pat);
    }
  }

  /**
   * Matching a rendered pattern gives back the numerals it was rendered with,
   * whatever text surrounds it (a pattern that ends in `(\d+)` must not be
   * followed by a digit).
   */
  lemma MatchRender(pre: string, pat: seq<Token>, caps: seq<string>, ws: seq<string>, post: string)
    requires Separated(pat) && |caps| == DigitsCount(pat) && |ws| == SpacesCount(pat)
    requires (forall i :: 0 <= i < |caps| ==> IsDigits(caps[i])) && Blanks(ws)
    requires pat != [] && pat[|pat| - 1].Digits? ==> post == [] || !IsDigit(post[0])
    ensures MatchAt(pre + Render(pat, caps, ws) + post, |pre|, pat) == Some(caps)
  {
    var t := pre + Render(pat, caps, ws) + post;
    assert t[|pre|..] == Render(pat, caps, ws) + post;
    MatchRendered(t, |pre|, pat, caps, ws, post);
  }

  /** A rendered pattern with no match before it is what `t.match(re)` reports. */
  lemma FirstMatchRender(pre: string, pat: seq<Token>, caps: seq<string>, ws: seq<string>, post: string)
    requires Separated(pat) && |caps| == DigitsCount(pat) && |ws| == SpacesCount(pat)
    requires (forall i :: 0 <= i < |caps| ==> IsDigits(caps[i])) && Blanks(ws)
    requires pat != [] && pat[|pat| - 1].Digits? ==> post == [] || !IsDigit(post[0])
    requires forall q :: 0 <= q < |pre| ==> MatchAt(pre + Render(pat, caps, ws) + post, q, pat).None?
    ensures FirstMatch(pre + Render(pat, caps, ws) + post, pat) == Some(caps)
  {
    MatchRender(pre, pat, caps, ws, post);
    FirstMatchAt(pre + Render(pat, caps, ws) + post, pat, |pre|);
  }

  /** FirstMatchRender, for a text already known to be the rendering between pre and post. */
  lemma FirstMatchRenderIn(t: string, pre: string, pat: seq<Token>, caps: seq<string>, ws: seq<string>, post: string)
    requires Separated(pat) && |caps| == DigitsCount(pat) && |ws| == SpacesCount(pat)
    requires t == pre + Render(pat, caps, ws) + post
    requires (forall i :: 0 <= i < |caps| ==> IsDigits(caps[i])) && Blanks(ws)
    requires pat != [] && pat[|pat| - 1].Digits? ==> post == [] || !IsDigit(post[0])
    requires forall q :: 0 <= q < |pre| ==> MatchAt(t, q, pat).None?
    ensures FirstMatch(t, pat) == Some(caps)
  {
    FirstMatchRender(pre, pat, caps, ws, post);
  }

  // ---------------------------------------------------------------------------
  // A match is a rendering
  // ---------------------------------------------------------------------------

  /** A match at p is a rendering of the pattern: ws are the runs the `\s*` took, post the text after the match. */
  lemma {:induction false} MatchShape(t: string, p: nat, pat: seq<Token>) returns (ws: seq<string>, post: string)
    requires p <= |t| && MatchAt(t, p, pat).Some?
    ensures RenderedAt(t, p, pat, MatchAt(t, p, pat).value, ws, post)
    decreases |pat|, 1
  {
    if pat == [] {
      ws, post := [], t[p..];
    } else if pat[0].Lit? {
      ws, post := ShapeLit(t, p, pat);
    } else if pat[0].Spaces? {
      ws, post := ShapeSpaces(t, p, pat);
    } else {
      ws, post := ShapeDigits(t, p, pat);
    }
  }

  lemma {:induction false} ShapeLit(t: string, p: nat, pat: seq<Token>) returns (ws: seq<string>, post: string)
    requires p <= |t| && pat != [] && pat[0].Lit? && MatchAt(t, p, pat).Some?
    ensures RenderedAt(t, p, pat, MatchAt(t, p, pat).value, ws, post)
    decreases |pat|, 0
  {
    var s := pat[0].text;
    LitInverse(t, p, pat);
    ws, post := MatchShape(t, p + |s|, pat[1..]);
    SplitAt(t, p, |s|);
    LitShapeStep(t[p + |s|..], pat, MatchAt(t, p, pat).value, ws, post);
  }

  lemma {:induction false} ShapeSpaces(t: string, p: nat, pat: seq<Token>) returns (ws: seq<string>, post: string)
    requires p <= |t| && pat != [] && pat[0].Spaces? && MatchAt(t, p, pat).Some?
    ensures RenderedAt(t, p, pat, MatchAt(t, p, pat).value, ws, post)
    decreases |pat|, 0
  {
    var n, w := SpacesInverse(t, p, pat);
    var rest;
    rest, post := MatchShape(t, p + n, pat[1..]);
    SpacesShapeStep(w, t[p + n..], pat, MatchAt(t, p, pat).value, rest, post);
    ws := [w] + rest;
  }

  lemma {:induction false} ShapeDigits(t: string, p: nat, pat: seq<Token>) returns (ws: seq<string>, post: string)
    requires p <= |t| && pat != [] && pat[0].Digits? && MatchAt(t, p, pat).Some?
    ensures RenderedAt(t, p, pat, MatchAt(t, p, pat).value, ws, post)
    decreases |pat|, 0
  {
    var n, d, rest := DigitsInverse(t, p, pat);
    ws, post := MatchShape(t, p + n, pat[1..]);
    DigitsShapeStep(d, t[p + n..], pat, rest, ws, post);
  }

  /** What a match that starts with a literal consists of. */
  lemma LitInverse(t: string, p: nat, pat: seq<Token>)
    requires p <= |t| && pat != [] && pat[0].Lit? && MatchAt(t, p, pat).Some?
    ensures StartsWith(t[p..], pat[0].text) && p + |pat[0].text| <= |t|
    ensures MatchAt(t, p + |pat[0].text|, pat[1..]) == MatchAt(t, p, pat)
  {
  }

  /** What a match that starts with `\s*` consists of: the whole leading run w, then the rest. */
  lemma SpacesInverse(t: string, p: nat, pat: seq<Token>) returns (n: nat, w: string)
    requires p <= |t| && pat != [] && pat[0].Spaces? && MatchAt(t, p, pat).Some?
    ensures p + n <= |t| && MatchAt(t, p + n, pat[1..]) == MatchAt(t, p, pat)
    ensures AllSpace(w) && t[p..] == w + t[p + n..]
  {
    n := LeadingSpaces(t[p..]);
    w := t[p..p + n];
    SplitAt(t, p, n);
  }

  /** What a match that starts with `(\d+)` consists of: the whole leading digit run d, then the rest. */
  lemma DigitsInverse(t: string, p: nat, pat: seq<Token>) returns (n: nat, d: string, rest: seq<string>)
    requires p <= |t| && pat != [] && pat[0].Digits? && MatchAt(t, p, pat).Some?
    ensures p + n <= |t| && MatchAt(t, p + n, pat[1..]) == Some(rest) && MatchAt(t, p, pat) == Some([d] + rest)
    ensures IsDigits(d) && t[p..] == d + t[p + n..]
    ensures t[p + n..] == [] || !IsDigit(t[p + n..][0])
  {
    n := LeadingDigits(t[p..]);
    d := t[p..p + n];
    rest := MatchAt(t, p + n, pat[1..]).value;
    SplitAt(t, p, n);
    DigitRunEnds(t, p, n);
  }

  /** t[p..] splits at p + n. */
  lemma SplitAt(t: string, p: nat, n: nat)
    requires p + n <= |t|
    ensures t[p..] == t[p..p + n] + t[p + n..] && t[p..p + n] == t[p..][..n]
  {
  }

  /** Render of a pattern that starts with a literal. */
  lemma RenderLit(pat: seq<Token>, caps: seq<string>, ws: seq<string>)
    requires pat != [] && pat[0].Lit? && |caps| == DigitsCount(pat[1..]) && |ws| == SpacesCount(pat[1..])
    ensures DigitsCount(pat) == |caps| && SpacesCount(pat) == |ws|
    ensures Render(pat, caps, ws) == pat[0].text + Render(pat[1..], caps, ws)
  {
  }

  /** Render of a pattern that starts with `\s*`. */
  lemma RenderSpaces(pat: seq<Token>, caps: seq<string>, w: string, ws: seq<string>)
    requires pat != [] && pat[0].Spaces? && |caps| == DigitsCount(pat[1..]) && |ws| == SpacesCount(pat[1..])
    ensures DigitsCount(pat) == |caps| && SpacesCount(pat) == |[w] + ws|
    ensures Render(pat, caps, [w] + ws) == w + Render(pat[1..], caps, ws)
  {
    assert ([w] + ws)[0] == w && ([w] + ws)[1..] == ws;
  }

  /** Render of a pattern that starts with `(\d+)`. */
  lemma RenderDigits(pat: seq<Token>, d: string, caps: seq<string>, ws: seq<string>)
    requires pat != [] && pat[0].Digits? && |caps| == DigitsCount(pat[1..]) && |ws| == SpacesCount(pat[1..])
    ensures DigitsCount(pat) == |[d] + caps| && SpacesCount(pat) == |ws|
    ensures Render(pat, [d] + caps, ws) == d + Render(pat[1..], caps, ws)
  {
    assert ([d] + caps)[0] == d && ([d] + caps)[1..] == caps;
  }

  lemma BlanksCons(w: string, ws: seq<string>)
    requires AllSpace(w) && Blanks(ws)
    ensures Blanks([w] + ws)
  {
    assert forall j :: 1 <= j < |[w] + ws| ==> ([w] + ws)[j] == ws[j - 1];
  }

  lemma NumeralsCons(d: string, caps: seq<string>)
    requires IsDigits(d) && forall i :: 0 <= i < |caps| ==> IsDigits(caps[i])
    ensures forall i :: 0 <= i < |[d] + caps| ==> IsDigits(([d] + caps)[i])
  {
    assert forall i :: 1 <= i < |[d] + caps| ==> ([d] + caps)[i] == caps[i - 1];
  }

  /** What follows the leading digit run is not a digit. */
  lemma DigitRunEnds(t: string, p: nat, n: nat)
    requires p + n <= |t| && n == LeadingDigits(t[p..])
    ensures t[p + n..] == [] || !IsDigit(t[p + n..][0])
  {
    if p + n < |t| {
      assert t[p + n..][0] == t[p..][n];
    }
  }

  /** A literal in front of a rendering. */
  lemma LitShapeStep(r: string, pat: seq<Token>, caps: seq<string>, ws: seq<string>, post: string)
    requires pat != [] && pat[0].Lit? && Rendering(r, pat[1..], caps, ws, post)
    ensures Rendering(pat[0].text + r, pat, caps, ws, post)
  {
    var s := pat[0].text;
    RenderLit(pat, caps, ws);
    ConcatAssoc(s, Render(pat[1..], caps, ws), post);
    assert |pat| > 1 ==> pat[1..][|pat[1..]| - 1] == pat[|pat| - 1];
  }

  /** A whitespace run in front of a rendering. */
  lemma SpacesShapeStep(w: string, r: string, pat: seq<Token>, caps: seq<string>, ws: seq<string>, post: string)
    requires pat != [] && pat[0].Spaces? && AllSpace(w) && Rendering(r, pat[1..], caps, ws, post)
    ensures Rendering(w + r, pat, caps, [w] + ws, post)
  {
    RenderSpaces(pat, caps, w, ws);
    BlanksCons(w, ws);
    ConcatAssoc(w, Render(pat[1..], caps, ws), post);
    assert |pat| > 1 ==> pat[1..][|pat[1..]| - 1] == pat[|pat| - 1];
  }

  /** A numeral in front of a rendering; when it ends the pattern, what follows is not a digit. */
  lemma DigitsShapeStep(d: string, r: string, pat: seq<Token>, caps: seq<string>, ws: seq<string>, post: string)
    requires pat != [] && pat[0].Digits? && IsDigits(d) && Rendering(r, pat[1..], caps, ws, post)
    requires |pat| == 1 ==> r == [] || !IsDigit(r[0])
    ensures Rendering(d + r, pat, [d] + caps, ws, post)
  {
    RenderDigits(pat, d, caps, ws);
    NumeralsCons(d, caps);
    ConcatAssoc(d, Render(pat[1..], caps, ws), post);
    if |pat| > 1 {
      assert pat[1..][|pat[1..]| - 1] == pat[|pat| - 1];
    } else {
      assert r == post;
    }
  }

  // ---------------------------------------------------------------------------
  // A rendering is a match
  // ---------------------------------------------------------------------------

  lemma SeparatedTail(pat: seq<Token>)
    requires pat != [] && Separated(pat)
    ensures Separated(pat[1..])
  {
    forall i | 0 <= i < |pat[1..]| ensures SeparatedAt(pat[1..], i) {
      assert SeparatedAt(pat, i + 1);
    }
  }

  lemma DigitsTail(caps: seq<string>)
    requires caps != [] && forall i :: 0 <= i < |caps| ==> IsDigits(caps[i])
    ensures forall i :: 0 <= i < |caps[1..]| ==> IsDigits(caps[1..][i])
  {
  }

  lemma BlanksTail(ws: seq<string>)
    requires ws != [] && Blanks(ws)
    ensures AllSpace(ws[0]) && Blanks(ws[1..])
  {
    assert forall j :: 0 <= j < |ws[1..]| ==> ws[1..][j] == ws[j + 1];
  }

  /** The first character a rendering starts with, when the pattern starts with a literal. */
  lemma RenderStartsWithLiteral(pat: seq<Token>, caps: seq<string>, ws: seq<string>)
    requires |caps| == DigitsCount(pat) && |ws| == SpacesCount(pat)
    requires pat != [] && pat[0].Lit? && pat[0].text != []
    ensures Render(pat, caps, ws) != [] && Render(pat, caps, ws)[0] == pat[0].text[0]
  {
  }

  /** A rendering that starts with `(\d+)` starts with a digit. */
  lemma RenderStartsWithDigits(pat: seq<Token>, caps: seq<string>, ws: seq<string>)
    requires |caps| == DigitsCount(pat) && |ws| == SpacesCount(pat) && pat != [] && pat[0].Digits?
    requires forall i :: 0 <= i < |caps| ==> IsDigits(caps[i])
    ensures Render(pat, caps, ws) != [] && IsDigit(Render(pat, caps, ws)[0])
  {
    assert IsDigits(caps[0]);
  }

  lemma {:induction false} DigitsCountAppend(a: seq<Token>, b: seq<Token>)
    ensures DigitsCount(a + b) == DigitsCount(a) + DigitsCount(b)
    decreases |a|
  {
    if a == [] {
      assert a + b == b;
    } else {
      ConcatTail(a, b);
      DigitsCountAppend(a[1..], b);
    }
  }

  lemma {:induction false} SpacesCountAppend(a: seq<Token>, b: seq<Token>)
    ensures SpacesCount(a + b) == SpacesCount(a) + SpacesCount(b)
    decreases |a|
  {
    if a == [] {
      assert a + b == b;
    } else {
      ConcatTail(a, b);
      SpacesCountAppend(a[1..], b);
    }
  }

  /** Rendering distributes over concatenation of patterns. */
  lemma {:induction false} RenderAppend(a: seq<Token>, ca: seq<string>, wa: seq<string>, b: seq<Token>, cb: seq<string>, wb: seq<string>)
    requires |ca| == DigitsCount(a) && |cb| == DigitsCount(b)
    requires |wa| == SpacesCount(a) && |wb| == SpacesCount(b)
    ensures DigitsCount(a + b) == |ca + cb| && SpacesCount(a + b) == |wa + wb|
    ensures Render(a + b, ca + cb, wa + wb) == Render(a, ca, wa) + Render(b, cb, wb)
    decreases |a|
  {
    DigitsCountAppend(a, b);
    SpacesCountAppend(a, b);
    if a == [] {
      assert a + b == b;
      assert ca + cb == cb;
      assert wa + wb == wb;
    } else {
      ConcatTail(a, b);
      match a[0]
      case Lit(s) =>
        RenderAppend(a[1..], ca, wa, b, cb, wb);
        ConcatAssoc(s, Render(a[1..], ca, wa), Render(b, cb, wb));
      case Spaces =>
        ConcatTail(wa, wb);
        RenderAppend(a[1..], ca, wa[1..], b, cb, wb);
        ConcatAssoc(wa[0], Render(a[1..], ca, wa[1..]), Render(b, cb, wb));
      case Digits =>
        ConcatTail(ca, cb);
        RenderAppend(a[1..], ca[1..], wa, b, cb, wb);
        ConcatAssoc(ca[0], Render(a[1..], ca[1..], wa), Render(b, cb, wb));
    }
  }

  /** MatchRender, for the text from offset p on. */
  lemma {:induction false} MatchRendered(t: string, p: nat, pat: seq<Token>, caps: seq<string>, ws: seq<string>, post: string)
    requires Separated(pat) && RenderedAt(t, p, pat, caps, ws, post)
    ensures MatchAt(t, p, pat) == Some(caps)
    decreases |pat|, 1
  {
    if pat == [] {
      assert caps == [];
    } else if pat[0].Digits? {
      MatchRenderedDigits(t, p, pat, caps, ws, post);
    } else if pat[0].Lit? {
      MatchRenderedLit(t, p, pat, caps, ws, post);
    } else {
      MatchRenderedSpaces(t, p, pat, caps, ws, post);
    }
  }

  /** A rendering that starts with a literal. */
  lemma {:induction false} MatchRenderedLit(t: string, p: nat, pat: seq<Token>, caps: seq<string>, ws: seq<string>, post: string)
    requires Separated(pat) && RenderedAt(t, p, pat, caps, ws, post) && pat != [] && pat[0].Lit?
    ensures MatchAt(t, p, pat) == Some(caps)
    decreases |pat|, 0
  {
    var n := |pat[0].text|;
    LitStep(t, p, pat, caps, ws, post);
    MatchRendered(t, p + n, pat[1..], caps, ws, post);
    MatchAtLit(t, p, pat, caps);
  }

  /** A rendering that starts with the whitespace run of a `\s*`. */
  lemma {:induction false} MatchRenderedSpaces(t: string, p: nat, pat: seq<Token>, caps: seq<string>, ws: seq<string>, post: string)
    requires Separated(pat) && RenderedAt(t, p, pat, caps, ws, post) && pat != [] && pat[0].Spaces?
    ensures MatchAt(t, p, pat) == Some(caps)
    decreases |pat|, 0
  {
    var n := SpacesStep(t, p, pat, caps, ws, post);
    MatchRendered(t, p + n, pat[1..], caps, ws[1..], post);
    MatchAtSpaces(t, p, pat, n, caps);
  }

  /** A rendering that starts with a numeral. */
  lemma {:induction false} MatchRenderedDigits(t: string, p: nat, pat: seq<Token>, caps: seq<string>, ws: seq<string>, post: string)
    requires Separated(pat) && RenderedAt(t, p, pat, caps, ws, post) && pat != [] && pat[0].Digits?
    ensures MatchAt(t, p, pat) == Some(caps)
    decreases |pat|, 0
  {
    var d, rest := DigitsStep(t, p, pat, caps, ws, post);
    MatchRendered(t, p + |d|, pat[1..], rest, ws, post);
    MatchAtDigits(t, p, pat, d, rest);
  }

  /** LitSplit, for the text from offset p on. */
  lemma LitStep(t: string, p: nat, pat: seq<Token>, caps: seq<string>, ws: seq<string>, post: string)
    requires Separated(pat) && RenderedAt(t, p, pat, caps, ws, post) && pat != [] && pat[0].Lit?
    ensures StartsWith(t[p..], pat[0].text) && p + |pat[0].text| <= |t|
    ensures Separated(pat[1..]) && RenderedAt(t, p + |pat[0].text|, pat[1..], caps, ws, post)
  {
    LitSplit(t[p..], pat, caps, ws, post);
    SuffixOfSuffix(t, p, |pat[0].text|);
  }

  /** SpacesSplit, for the text from offset p on. */
  lemma SpacesStep(t: string, p: nat, pat: seq<Token>, caps: seq<string>, ws: seq<string>, post: string) returns (n: nat)
    requires Separated(pat) && RenderedAt(t, p, pat, caps, ws, post) && pat != [] && pat[0].Spaces?
    ensures ws != [] && p + n <= |t| && LeadingSpaces(t[p..]) == n
    ensures Separated(pat[1..]) && RenderedAt(t, p + n, pat[1..], caps, ws[1..], post)
  {
    n := SpacesSplit(t[p..], pat, caps, ws, post);
    SuffixOfSuffix(t, p, n);
  }

  /** DigitsSplit, for the text from offset p on. */
  lemma DigitsStep(t: string, p: nat, pat: seq<Token>, caps: seq<string>, ws: seq<string>, post: string) returns (d: string, rest: seq<string>)
    requires Separated(pat) && RenderedAt(t, p, pat, caps, ws, post) && pat != [] && pat[0].Digits?
    ensures caps == [d] + rest && d != [] && p + |d| <= |t|
    ensures LeadingDigits(t[p..]) == |d| && t[p..][..|d|] == d
    ensures Separated(pat[1..]) && RenderedAt(t, p + |d|, pat[1..], rest, ws, post)
  {
    d, rest := DigitsSplit(t[p..], pat, caps, ws, post);
    SuffixOfSuffix(t, p, |d|);
  }

  /** A suffix of a suffix. */
  lemma SuffixOfSuffix(t: string, p: nat, n: nat)
    requires p <= |t| && n <= |t[p..]|
    ensures p + n <= |t| && t[p..][n..] == t[p + n..]
  {
  }

  /** One literal step of MatchAt. */
  lemma MatchAtLit(t: string, p: nat, pat: seq<Token>, rest: seq<string>)
    requires p <= |t| && pat != [] && pat[0].Lit? && StartsWith(t[p..], pat[0].text)
    requires p + |pat[0].text| <= |t| && MatchAt(t, p + |pat[0].text|, pat[1..]) == Some(rest)
    ensures MatchAt(t, p, pat) == Some(rest)
  {
  }

  /** One `\s*` step of MatchAt. */
  lemma MatchAtSpaces(t: string, p: nat, pat: seq<Token>, n: nat, rest: seq<string>)
    requires p + n <= |t| && pat != [] && pat[0].Spaces? && LeadingSpaces(t[p..]) == n
    requires MatchAt(t, p + n, pat[1..]) == Some(rest)
    ensures MatchAt(t, p, pat) == Some(rest)
  {
    assert MatchAt(t, p, pat) == MatchAt(t, p + n, pat[1..]);
  }

  /** One `(\d+)` step of MatchAt. */
  lemma MatchAtDigits(t: string, p: nat, pat: seq<Token>, d: string, rest: seq<string>)
    requires p <= |t| && pat != [] && pat[0].Digits?
    requires d != [] && LeadingDigits(t[p..]) == |d| && t[p..][..|d|] == d
    requires MatchAt(t, p + |d|, pat[1..]) == Some(rest)
    ensures MatchAt(t, p, pat) == Some([d] + rest)
  {
    assert t[p..p + |d|] == t[p..][..|d|];
  }

  /** What is left of the conditions once the first token is consumed. */
  lemma RenderedTail(pat: seq<Token>, post: string)
    requires pat != [] && Separated(pat)
    requires pat[|pat| - 1].Digits? ==> post == [] || !IsDigit(post[0])
    ensures Separated(pat[1..])
    ensures pat[1..] != [] && pat[1..][|pat[1..]| - 1].Digits? ==> post == [] || !IsDigit(post[0])
  {
    SeparatedTail(pat);
    assert pat[1..] != [] ==> pat[1..][|pat[1..]| - 1] == pat[|pat| - 1];
  }

  /** A literal is matched as it stands. */
  lemma LitSplit(r: string, pat: seq<Token>, caps: seq<string>, ws: seq<string>, post: string)
    requires Separated(pat) && Rendering(r, pat, caps, ws, post) && pat != [] && pat[0].Lit?
    ensures StartsWith(r, pat[0].text)
    ensures Separated(pat[1..]) && Rendering(r[|pat[0].text|..], pat[1..], caps, ws, post)
  {
    var s := pat[0].text;
    var rest := Render(pat[1..], caps, ws);
    RenderLit(pat, caps, ws);
    RenderedTail(pat, post);
    ConcatAssoc(s, rest, post);
    assert r[..|s|] == s && r[|s|..] == rest + post;
  }

  /** A whitespace run a `\s*` was rendered with is the whole leading run, since a non-blank follows it. */
  lemma SpacesSplit(r: string, pat: seq<Token>, caps: seq<string>, ws: seq<string>, post: string) returns (n: nat)
    requires Separated(pat) && Rendering(r, pat, caps, ws, post) && pat != [] && pat[0].Spaces?
    ensures ws != [] && n == |ws[0]| && n <= |r| && LeadingSpaces(r) == n
    ensures Separated(pat[1..]) && Rendering(r[n..], pat[1..], caps, ws[1..], post)
  {
    var w := ws[0];
    n := |w|;
    var rest := Render(pat[1..], caps, ws[1..]);
    ConsTail(ws);
    RenderSpaces(pat, caps, w, ws[1..]);
    RenderedTail(pat, post);
    BlanksTail(ws);
    ConcatAssoc(w, rest, post);
    assert r[n..] == rest + post;
    SpacesFollowed(pat);
    if pat[1].Lit? {
      RenderStartsWithLiteral(pat[1..], caps, ws[1..]);
    } else {
      RenderStartsWithDigits(pat[1..], caps, ws[1..]);
    }
    assert (rest + post)[0] == rest[0];
    LeadingSpacesAfterSpaces(w, rest + post);
  }

  /** A rendered numeral is the whole digit run, since what follows it is not a digit. */
  lemma DigitsSplit(r: string, pat: seq<Token>, caps: seq<string>, ws: seq<string>, post: string) returns (d: string, rest: seq<string>)
    requires Separated(pat) && Rendering(r, pat, caps, ws, post) && pat != [] && pat[0].Digits?
    ensures caps == [d] + rest && d != [] && |d| <= |r|
    ensures LeadingDigits(r) == |d| && r[..|d|] == d
    ensures Separated(pat[1..]) && Rendering(r[|d|..], pat[1..], rest, ws, post)
  {
    d, rest := caps[0], caps[1..];
    var tail := Render(pat[1..], rest, ws);
    ConsTail(caps);
    RenderDigits(pat, d, rest, ws);
    RenderedTail(pat, post);
    DigitsTail(caps);
    ConcatAssoc(d, tail, post);
    assert r[..|d|] == d && r[|d|..] == tail + post;
    DigitsFollowed(pat);
    if |pat| > 1 {
      RenderStartsWithLiteral(pat[1..], rest, ws);
      assert (tail + post)[0] == tail[0];
    } else {
      assert tail + post == post;
    }
    DigitsPrefix(d, tail + post);
  }

  lemma SpacesFollowed(pat: seq<Token>)
    requires Separated(pat) && pat != [] && pat[0].Spaces?
    ensures |pat| > 1 && (pat[1].Digits? || (pat[1].Lit? && pat[1].text != [] && !IsSpace(pat[1].text[0])))
  {
    assert SeparatedAt(pat, 0);
  }

  lemma DigitsFollowed(pat: seq<Token>)
    requires Separated(pat) && pat != [] && pat[0].Digits?
    ensures |pat| > 1 ==> pat[1].Lit? && pat[1].text != [] && !IsDigit(pat[1].text[0])
  {
    assert SeparatedAt(pat, 0);
  }

  /** A numeral followed by a non-digit is exactly the leading digit run. */
  lemma {:induction false} DigitsPrefix(d: string, rest: string)
    requires IsDigits(d)
    requires rest == [] || !IsDigit(rest[0])
    ensures LeadingDigits(d + rest) == |d|
    decreases |d|
  {
    assert (d + rest)[1..] == d[1..] + rest;
    if |d| > 1 {
      DigitsPrefix(d[1..], rest);
    } else {
      assert d[1..] + rest == rest;
    }
  }
}
