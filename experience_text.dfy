/** Cutting the Experience section out of a LinkedIn profile PDF's text
    (`extractExperienceTextFromPdfBuffer`, api/process-linkedin-pdf.js). The PDF
    itself is given as the text items of each page, in order; the end-of-section
    regular expression is a parameter that returns the index of its first match. */
module ExperienceText {
  import opened Wrappers
  import opened Text

  /** Characters kept when no heading is found. */
  const FallbackLimit: nat := 10000
  /** Characters kept after the heading when no stop index is found. */
  const SectionLimit: nat := 12000
  /** The end-of-section pattern is only searched past this many characters. */
  const PatternOffset: nat := 500
  /** The stop headings, tried in this order. */
  const StopKeywords: seq<string> := ["about", "skills", "education"]

  /** The first match of the end-of-section regular expression in a string, as an
      index into it, if any. */
  type Pattern = string -> Option<nat>

  /** One page: its items' strings joined by single spaces, then one newline. */
  function PageText(items: seq<string>): string {
    Join(items, " ") + "\n"
  }

  /** The whole document text: the pages' texts one after the other. */
  function DocumentText(pages: seq<seq<string>>): string {
    if pages == [] then "" else DocumentText(pages[..|pages| - 1]) + PageText(pages[|pages| - 1])
  }

  lemma {:induction false} DocumentTextAppend(a: seq<seq<string>>, b: seq<seq<string>>)
    ensures DocumentText(a + b) == DocumentText(a) + DocumentText(b)
  {
    if b == [] {
      assert a + b == a;
    } else {
      var b' := b[..|b| - 1];
      assert (a + b)[..|a + b| - 1] == a + b';
      assert (a + b)[|a + b| - 1] == b[|b| - 1];
      DocumentTextAppend(a, b');
      assert DocumentText(b) == DocumentText(b') + PageText(b[|b| - 1]);
    }
  }

  /** When no item contains a newline, the document has exactly one newline per page. */
  lemma {:induction false} NewlinePerPage(pages: seq<seq<string>>)
    requires forall p, k :: 0 <= p < |pages| && 0 <= k < |pages[p]| ==> CountChar(pages[p][k], '\n') == 0
    ensures CountChar(DocumentText(pages), '\n') == |pages|
  {
    if pages != [] {
      var init, last := pages[..|pages| - 1], pages[|pages| - 1];
      NewlinePerPage(init);
      assert CountChar(" ", '\n') == 0;
      JoinCount(last, " ", '\n');
      assert CountChar("\n", '\n') == 1;
      CountCharConcat(Join(last, " "), "\n", '\n');
      CountCharConcat(DocumentText(init), PageText(last), '\n');
    }
  }

  /** The page loop: `fullText += items.join(' ') + '\n'` for every page. */
  method JoinPages(pages: seq<seq<string>>) returns (fullText: string)
    ensures fullText == DocumentText(pages)
  {
    fullText := "";
    var i := 0;
    while i < |pages|
      invariant 0 <= i <= |pages|
      invariant fullText == DocumentText(pages[..i])
    {
      assert pages[..i + 1][..i] == pages[..i];
      fullText := fullText + Join(pages[i], " ") + "\n";
      i := i + 1;
    }
    assert pages[..i] == pages;
  }

  /** Start of the section: the first "more experience" in the lower-cased text if
      there is one, else the first "experience", else -1. */
  function HeadingStart(fullText: string): int {
    var lower := Lower(fullText);
    var experienceStart := IndexOf(lower, "experience");
    var moreExperienceStart := IndexOf(lower, "more experience");
    if moreExperienceStart != -1 then moreExperienceStart else experienceStart
  }

  /** The heading rules: "more experience" wins over "experience", and there is no
      heading exactly when "experience" does not occur at all. A heading starts with
      "experience" or "more experience" in the lower-cased text. */
  lemma HeadingStartRules(fullText: string)
    ensures var lower, start := Lower(fullText), HeadingStart(fullText);
      && (start == -1 <==> !Contains(lower, "experience"))
      && (Contains(lower, "more experience") ==> start == IndexOf(lower, "more experience"))
      && (!Contains(lower, "more experience") ==> start == IndexOf(lower, "experience"))
      && (start != -1 ==>
            && 0 <= start && start + 10 <= |fullText|
            && (StartsWith(lower[start..], "experience") || StartsWith(lower[start..], "more experience"))
            && ((lower[start] == 'e' && lower[start + 1] == 'x') || (lower[start] == 'm' && lower[start + 1] == 'o')))
  {
    var lower := Lower(fullText);
    var m := IndexOf(lower, "more experience");
    var e := IndexOf(lower, "experience");
    IndexOfFirst(lower, "more experience");
    IndexOfFirst(lower, "experience");
    if m != -1 {
      OccursAtStart(lower, "more experience", m);
      MoreContainsExperience(lower, m);
    } else if e != -1 {
      OccursAtStart(lower, "experience", e);
    }
  }

  /** An occurrence at `k` is a prefix of the text from `k` and fixes its first two
      letters. */
  lemma OccursAtStart(s: string, pat: string, k: int)
    requires OccursAt(s, pat, k) && |pat| >= 2
    ensures 0 <= k && k + |pat| <= |s| && StartsWith(s[k..], pat)
    ensures s[k] == pat[0] && s[k + 1] == pat[1]
  {
    assert s[k..][..|pat|] == s[k..k + |pat|];
    assert s[k..k + |pat|][0] == s[k] && s[k..k + |pat|][1] == s[k + 1];
  }

  /** "more experience" at `m` holds "experience" at `m + 5`. */
  lemma MoreContainsExperience(s: string, m: int)
    requires OccursAt(s, "more experience", m)
    ensures OccursAt(s, "experience", m + 5)
  {
    var w := s[m..m + 15];
    assert s[m + 5..m + 15] == w[5..];
    assert w[5..] == "experience";
  }

  /** The keyword loop's result over a list of keywords: the smallest index at which
      one of them first occurs, or -1. */
  function EarliestOf(t: string, kws: seq<string>): (r: int)
    ensures -1 <= r <= |t|
  {
    if kws == [] then -1
    else
      var prev := EarliestOf(t, kws[..|kws| - 1]);
      var idx := IndexOf(t, kws[|kws| - 1]);
      if idx != -1 && (prev == -1 || idx < prev) then idx else prev
  }

  /** The keyword loop finds the minimum of the keywords' first positions: -1 when
      none occurs, otherwise the position of one of them and no later than any. */
  lemma {:induction false} EarliestOfMinimum(t: string, kws: seq<string>)
    ensures var r := EarliestOf(t, kws);
      && (r == -1 <==> forall k :: 0 <= k < |kws| ==> IndexOf(t, kws[k]) == -1)
      && (r != -1 ==> exists k :: 0 <= k < |kws| && IndexOf(t, kws[k]) == r)
      && (forall k :: 0 <= k < |kws| && IndexOf(t, kws[k]) != -1 ==> r != -1 && r <= IndexOf(t, kws[k]))
  {
    if kws != [] {
      var init := kws[..|kws| - 1];
      EarliestOfMinimum(t, init);
      assert forall k :: 0 <= k < |kws| - 1 ==> init[k] == kws[k];
      var prev := EarliestOf(t, init);
      var idx := IndexOf(t, kws[|kws| - 1]);
      if prev != -1 {
        var k :| 0 <= k < |init| && IndexOf(t, init[k]) == prev;
        assert IndexOf(t, kws[k]) == prev;
      }
    }
  }

  /** The keyword loop itself (`earliestStopIndex`). */
  method EarliestStop(lowerTail: string) returns (earliestStopIndex: int)
    ensures earliestStopIndex == EarliestOf(lowerTail, StopKeywords)
  {
    earliestStopIndex := -1;
    for i := 0 to |StopKeywords|
      invariant earliestStopIndex == EarliestOf(lowerTail, StopKeywords[..i])
    {
      var kw := StopKeywords[i];
      assert StopKeywords[..i + 1][..i] == StopKeywords[..i];
      var idx := IndexOf(lowerTail, kw);
      if idx != -1 && (earliestStopIndex == -1 || idx < earliestStopIndex) {
        earliestStopIndex := idx;
      }
    }
    assert StopKeywords[..|StopKeywords|] == StopKeywords;
  }

  /** The pattern fallback: a match in `lowerTail.substring(500)`, shifted back by 500. */
  function PatternStop(lowerTail: string, endOfSection: Pattern): int {
    match endOfSection(JsSubstring(lowerTail, PatternOffset, |lowerTail|))
    case Some(i) => PatternOffset + i
    case None => -1
  }

  /** The stop index: the earliest keyword, else the pattern, else -1. */
  function StopIndex(lowerTail: string, endOfSection: Pattern): int {
    var k := EarliestOf(lowerTail, StopKeywords);
    if k != -1 then k else PatternStop(lowerTail, endOfSection)
  }

  /** Step 4 of the extraction: cut the tail at the stop index, or at 12000
      characters when there is none. */
  function CutTail(tail: string, stop: int): string {
    if stop != -1 then JsSubstring(tail, 0, stop) else JsSubstring(tail, 0, SectionLimit)
  }

  /** The text `extractExperienceTextFromPdfBuffer` returns for a document text. */
  function ExperienceSection(fullText: string, endOfSection: Pattern): string {
    var start := HeadingStart(fullText);
    if start == -1 then JsSubstring(fullText, 0, FallbackLimit)
    else
      var tail := fullText[Clamp(start, |fullText|)..];
      Trim(CutTail(tail, StopIndex(Lower(tail), endOfSection)))
  }

  /** The extraction as the source performs it, from the pages to the trimmed text. */
  method ExtractExperienceText(pages: seq<seq<string>>, endOfSection: Pattern) returns (text: string)
    ensures text == ExperienceSection(DocumentText(pages), endOfSection)
  {
    var fullText := JoinPages(pages);
    var lower := Lower(fullText);
    var experienceStart := IndexOf(lower, "experience");
    var moreExperienceStart := IndexOf(lower, "more experience");
    var start := if moreExperienceStart != -1 then moreExperienceStart else experienceStart;
    assert start == HeadingStart(fullText);
    if start == -1 {
      return JsSubstring(fullText, 0, FallbackLimit);
    }
    var experienceText := JsSubstring(fullText, start, |fullText|);
    ghost var tail := experienceText;
    assert tail == fullText[start..];
    var lowerExperienceText := Lower(experienceText);
    var earliestStopIndex := EarliestStop(lowerExperienceText);
    if earliestStopIndex == -1 {
      var patternMatch := endOfSection(JsSubstring(lowerExperienceText, PatternOffset, |lowerExperienceText|));
      if patternMatch.Some? {
        earliestStopIndex := PatternOffset + patternMatch.value;
      }
    }
    assert earliestStopIndex == StopIndex(Lower(tail), endOfSection);
    if earliestStopIndex != -1 {
      experienceText := JsSubstring(experienceText, 0, earliestStopIndex);
    } else {
      experienceText := JsSubstring(experienceText, 0, SectionLimit);
    }
    assert experienceText == CutTail(tail, earliestStopIndex);
    SectionCut(fullText, endOfSection);
    text := Trim(experienceText);
  }

  /** With a heading, the section is the trimmed cut of the text from the heading on. */
  lemma SectionCut(fullText: string, endOfSection: Pattern)
    requires HeadingStart(fullText) != -1
    ensures var start := HeadingStart(fullText);
      0 <= start < |fullText| &&
      var tail := fullText[start..];
      ExperienceSection(fullText, endOfSection) == Trim(CutTail(tail, StopIndex(Lower(tail), endOfSection)))
  {
  }

  /** Without a heading the first 10000 characters come back untrimmed. */
  lemma NoHeadingKeepsPrefix(fullText: string, endOfSection: Pattern)
    requires !Contains(Lower(fullText), "experience")
    ensures var n := if |fullText| < FallbackLimit then |fullText| else FallbackLimit;
      ExperienceSection(fullText, endOfSection) == fullText[..n]
  {
    HeadingStartRules(fullText);
  }

  /** A keyword's first occurrence lies inside the text. */
  lemma EarliestInside(t: string)
    ensures EarliestOf(t, StopKeywords) < |t|
  {
    assert forall k :: 0 <= k < |StopKeywords| ==> |StopKeywords[k]| > 0;
    EarliestOfNonEmpty(t, StopKeywords);
  }

  lemma EarliestOfNonEmpty(t: string, kws: seq<string>)
    requires forall k :: 0 <= k < |kws| ==> |kws[k]| > 0
    ensures EarliestOf(t, kws) < |t|
  {
    var r := EarliestOf(t, kws);
    EarliestOfMinimum(t, kws);
    if r != -1 {
      var j :| 0 <= j < |kws| && IndexOf(t, kws[j]) == r;
    }
  }

  /** With a heading and a stop keyword, the section is the trimmed text from the
      heading up to the earliest keyword, which lies inside the tail. */
  lemma KeywordStopSection(fullText: string, endOfSection: Pattern)
    requires Contains(Lower(fullText), "experience")
    ensures var start := HeadingStart(fullText);
      0 <= start < |fullText| &&
      var tail := fullText[start..];
      var k := EarliestOf(Lower(tail), StopKeywords);
      k != -1 ==> 0 <= k < |tail| && ExperienceSection(fullText, endOfSection) == Trim(tail[..k])
  {
    HeadingStartRules(fullText);
    var start := HeadingStart(fullText);
    var tail := fullText[start..];
    EarliestInside(Lower(tail));
  }

  /** The pattern is consulted only when no keyword was found: otherwise the stop
      index does not depend on it. */
  lemma PatternOnlyWithoutKeyword(lowerTail: string, p1: Pattern, p2: Pattern)
    requires EarliestOf(lowerTail, StopKeywords) != -1
    ensures StopIndex(lowerTail, p1) == StopIndex(lowerTail, p2)
  {
  }

  /** A stop index that comes from the pattern is at least 500. */
  lemma PatternStopPastOffset(lowerTail: string, endOfSection: Pattern)
    requires EarliestOf(lowerTail, StopKeywords) == -1
    requires StopIndex(lowerTail, endOfSection) != -1
    ensures StopIndex(lowerTail, endOfSection) >= PatternOffset
    ensures endOfSection(JsSubstring(lowerTail, PatternOffset, |lowerTail|)).Some?
  {
  }

  /** With a heading but no stop index, the section is the trimmed first 12000
      characters of the tail, so never longer than 12000. */
  lemma CapWithoutStop(fullText: string, endOfSection: Pattern)
    requires Contains(Lower(fullText), "experience")
    ensures var start := HeadingStart(fullText);
      0 <= start < |fullText| &&
      var tail := fullText[start..];
      var n := if |tail| < SectionLimit then |tail| else SectionLimit;
      StopIndex(Lower(tail), endOfSection) == -1 ==>
        ExperienceSection(fullText, endOfSection) == Trim(tail[..n])
        && |ExperienceSection(fullText, endOfSection)| <= SectionLimit
  {
    HeadingStartRules(fullText);
  }

  /** The trimmed cut is one contiguous piece of the tail. */
  lemma CutWithin(tail: string, stop: int) returns (lo: nat, hi: nat)
    ensures lo <= hi <= |tail|
    ensures Trim(CutTail(tail, stop)) == tail[lo..hi]
  {
    var n := if stop != -1 then Clamp(stop, |tail|) else Clamp(SectionLimit, |tail|);
    assert CutTail(tail, stop) == tail[..n];
    lo, hi := TrimOfPrefix(tail, n);
  }

  /** Trimming a prefix leaves a piece of the text. */
  lemma TrimOfPrefix(s: string, n: nat) returns (lo: nat, hi: nat)
    requires n <= |s|
    ensures lo <= hi <= n
    ensures Trim(s[..n]) == s[lo..hi]
  {
    var cut := s[..n];
    var r := Trim(cut);
    lo, hi := LeadingSpace(cut), LeadingSpace(cut) + |r|;
    assert r == cut[lo..hi];
    SliceOfPrefix(s, n, lo, hi);
  }

  /** The section is always one contiguous piece of the document text; with a
      heading it starts at or after the heading (start <= end <= |text|). */
  lemma SectionWithin(fullText: string, endOfSection: Pattern) returns (lo: nat, hi: nat)
    ensures lo <= hi <= |fullText|
    ensures ExperienceSection(fullText, endOfSection) == fullText[lo..hi]
    ensures HeadingStart(fullText) != -1 ==> HeadingStart(fullText) <= lo
  {
    if HeadingStart(fullText) == -1 {
      lo, hi := 0, Clamp(FallbackLimit, |fullText|);
    } else {
      lo, hi := HeadingSectionWithin(fullText, endOfSection);
    }
  }

  lemma HeadingSectionWithin(fullText: string, endOfSection: Pattern) returns (lo: nat, hi: nat)
    requires HeadingStart(fullText) != -1
    ensures HeadingStart(fullText) <= lo <= hi <= |fullText|
    ensures ExperienceSection(fullText, endOfSection) == fullText[lo..hi]
  {
    var start := HeadingStart(fullText);
    SectionCut(fullText, endOfSection);
    lo, hi := SuffixCutWithin(fullText, start, StopIndex(Lower(fullText[start..]), endOfSection));
  }

  lemma SuffixCutWithin(fullText: string, start: nat, stop: int) returns (lo: nat, hi: nat)
    requires start <= |fullText|
    ensures start <= lo <= hi <= |fullText|
    ensures Trim(CutTail(fullText[start..], stop)) == fullText[lo..hi]
  {
    var a, b := CutWithin(fullText[start..], stop);
    SliceOfSuffix(fullText, start, a, b);
    lo, hi := start + a, start + b;
  }

  /** A keyword whose first two letters differ from the text's does not occur at 0. */
  lemma NotAtStart(t: string, kw: string)
    requires |t| >= 2 && |kw| >= 2 && (t[0] != kw[0] || t[1] != kw[1])
    ensures IndexOf(t, kw) != 0
  {
    IndexOfFirst(t, kw);
  }

  /** The tail after a heading begins with "ex" (of "experience") or "mo" (of
      "more experience"), so none of the stop keywords can occur at its very first
      position. */
  lemma KeywordsNotAtHeading(lowerTail: string)
    requires |lowerTail| >= 2
    requires (lowerTail[0] == 'e' && lowerTail[1] == 'x') || (lowerTail[0] == 'm' && lowerTail[1] == 'o')
    ensures EarliestOf(lowerTail, StopKeywords) != 0
  {
    NotAtStart(lowerTail, "about");
    NotAtStart(lowerTail, "skills");
    NotAtStart(lowerTail, "education");
    EarliestOfMinimum(lowerTail, StopKeywords);
    var r := EarliestOf(lowerTail, StopKeywords);
    if r != -1 {
      var k :| 0 <= k < |StopKeywords| && IndexOf(lowerTail, StopKeywords[k]) == r;
    }
  }

  /** A cut that keeps the first character of a tail starting with a non-space is
      not empty after trimming. */
  lemma CutNonEmpty(tail: string, stop: int)
    requires tail != [] && !IsJsSpace(tail[0])
    requires stop == -1 || stop > 0
    ensures Trim(CutTail(tail, stop)) != ""
  {
    var n := if stop != -1 then Clamp(stop, |tail|) else Clamp(SectionLimit, |tail|);
    var cut := tail[..n];
    assert CutTail(tail, stop) == cut;
    assert cut[0] == tail[0];
  }

  /** A stop index is -1 or positive when no keyword sits at position 0. */
  lemma StopIndexPositive(lowerTail: string, endOfSection: Pattern)
    requires EarliestOf(lowerTail, StopKeywords) != 0
    ensures var stop := StopIndex(lowerTail, endOfSection); stop == -1 || stop > 0
  {
  }

  /** The text from a heading on is cut to a non-empty section. */
  lemma HeadingSectionNonEmpty(fullText: string, endOfSection: Pattern)
    requires HeadingStart(fullText) != -1
    ensures ExperienceSection(fullText, endOfSection) != ""
  {
    HeadingStartRules(fullText);
    var start := HeadingStart(fullText);
    var lower := Lower(fullText);
    var tail := fullText[start..];
    var lowerTail := Lower(tail);
    assert lowerTail[0] == lower[start] && lowerTail[1] == lower[start + 1];
    KeywordsNotAtHeading(lowerTail);
    assert !IsJsSpace(tail[0]) by {
      assert LowerChar(tail[0]) == lowerTail[0];
    }
    var stop := StopIndex(lowerTail, endOfSection);
    StopIndexPositive(lowerTail, endOfSection);
    SectionCut(fullText, endOfSection);
    CutNonEmpty(tail, stop);
  }

  /** A non-empty document never yields an empty section. */
  lemma SectionNonEmpty(fullText: string, endOfSection: Pattern)
    requires fullText != ""
    ensures ExperienceSection(fullText, endOfSection) != ""
  {
    if HeadingStart(fullText) != -1 {
      HeadingSectionNonEmpty(fullText, endOfSection);
    }
  }
}
