/** The page-printer extension's popup (page-printer/popup.js): the Save PDF button
    asks the active tab for the profile name, builds the title `<code>_<name>` with
    the whitespace removed from the name, sets it as the page title and then opens
    the print dialog. The browser calls become the effects of a trace. */
module Popup {
  import opened Wrappers
  import opened Text

  /** `s.replace(/\s+/g, '')`: every whitespace character dropped. */
  function RemoveWhitespace(s: string): (r: string)
    ensures |r| <= |s|
    ensures forall i :: 0 <= i < |r| ==> !IsJsSpace(r[i])
    ensures forall c :: c in r <==> c in s && !IsJsSpace(c)
  {
    if s == [] then []
    else
      var rest := RemoveWhitespace(s[1..]);
      assert forall c :: c in s <==> c == s[0] || c in s[1..];
      if IsJsSpace(s[0]) then rest else [s[0]] + rest
  }

  /** Removing whitespace distributes over concatenation; with the single-character
      cases below this says the non-space characters are kept in their order. */
  lemma {:induction false} RemoveWhitespaceConcat(a: string, b: string)
    ensures RemoveWhitespace(a + b) == RemoveWhitespace(a) + RemoveWhitespace(b)
  {
    if a != [] {
      assert (a + b)[1..] == a[1..] + b;
      RemoveWhitespaceConcat(a[1..], b);
    } else {
      assert a + b == b;
    }
  }

  lemma RemoveWhitespaceChar(c: char)
    ensures RemoveWhitespace([c]) == (if IsJsSpace(c) then [] else [c])
  {
  }

  /** A string without whitespace is left unchanged. */
  lemma {:induction false} NoWhitespaceUnchanged(s: string)
    requires forall i :: 0 <= i < |s| ==> !IsJsSpace(s[i])
    ensures RemoveWhitespace(s) == s
  {
    if s != [] {
      NoWhitespaceUnchanged(s[1..]);
    }
  }

  /** Sanitizing twice is sanitizing once. */
  lemma RemoveWhitespaceIdempotent(s: string)
    ensures RemoveWhitespace(RemoveWhitespace(s)) == RemoveWhitespace(s)
  {
    NoWhitespaceUnchanged(RemoveWhitespace(s));
  }

  /** `response?.profileName || "Unknown"`: `None` stands for a missing response or
      a missing name. */
  function ProfileNameOrDefault(profileName: Option<string>): (r: string)
    ensures profileName.None? || profileName == Some("") ==> r == "Unknown"
    ensures profileName.Some? && profileName.value != "" ==> r == profileName.value
    ensures r != ""
  {
    match profileName
    case Some(n) => if n != "" then n else "Unknown"
    case None => "Unknown"
  }

  /** The title sent with `setCustomTitle`. */
  function PrintTitle(empCode: string, profileName: Option<string>): string {
    empCode + "_" + RemoveWhitespace(ProfileNameOrDefault(profileName))
  }

  /** The title is the code, an underscore and the sanitized name, which holds no
      whitespace and keeps every non-space character of the name. */
  lemma TitleParts(empCode: string, profileName: Option<string>)
    ensures var t := PrintTitle(empCode, profileName);
      var name := ProfileNameOrDefault(profileName);
      && |t| > |empCode|
      && t[..|empCode|] == empCode && t[|empCode|] == '_'
      && (forall i :: |empCode| < i < |t| ==> !IsJsSpace(t[i]))
      && (forall c :: c in t[|empCode| + 1..] <==> c in name && !IsJsSpace(c))
  {
    var name := RemoveWhitespace(ProfileNameOrDefault(profileName));
    var t := empCode + "_" + name;
    assert t[..|empCode|] == empCode && t[|empCode|] == '_';
    assert t[|empCode| + 1..] == name;
    forall i | |empCode| < i < |t| ensures !IsJsSpace(t[i]) {
      assert t[i] == name[i - |empCode| - 1];
    }
  }

  lemma LetterNotSpace(c: char)
    requires 'A' <= c <= 'z'
    ensures !IsJsSpace(c)
  {
  }

  /** Without a reported name the title is `<code>_Unknown`. */
  lemma MissingNameTitle(empCode: string)
    ensures PrintTitle(empCode, None) == empCode + "_" + "Unknown"
  {
    var u := "Unknown";
    forall i | 0 <= i < |u| ensures !IsJsSpace(u[i]) {
      LetterNotSpace(u[i]);
    }
    NoWhitespaceUnchanged(u);
  }

  const SelectFirst := "Please select an employee before saving PDF."

  /** The effects of one click, in the order they happen. */
  datatype Effect =
    | Alert(text: string)
    | AskProfileName
    | SetCustomTitle(title: string)
    | PrintPage

  function SuggestedName(empCode: string): string {
    "Print dialog opened. Suggested filename will be:\n" + empCode + "_ProfileName.pdf"
  }

  /** The Save PDF click for the selected code and the name the content script
      answers with. The `getProfileName` message is sent before the second alert;
      its reply arrives after it; the print runs in the reply to `setCustomTitle`. */
  function SavePdf(empCode: string, profileName: Option<string>): (effects: seq<Effect>)
    ensures empCode == "" <==> effects == [Alert(SelectFirst)]
    ensures empCode != "" ==>
      (|effects| == 4 && effects[3] == PrintPage
       && effects[2] == SetCustomTitle(PrintTitle(empCode, profileName)))
  {
    if empCode == "" then [Alert(SelectFirst)]
    else [AskProfileName, Alert(SuggestedName(empCode)), SetCustomTitle(PrintTitle(empCode, profileName)), PrintPage]
  }

  /** An empty code sends no message to the tab and never prints. */
  lemma EmptyCodeSendsNothing(profileName: Option<string>)
    ensures forall e :: e in SavePdf("", profileName) ==> e.Alert?
  {
  }

  /** Every print comes after the title for this click has been set. */
  lemma PrintFollowsTitle(empCode: string, profileName: Option<string>)
    ensures var effects := SavePdf(empCode, profileName);
      forall i :: 0 <= i < |effects| && effects[i] == PrintPage ==>
        exists j :: 0 <= j < i && effects[j] == SetCustomTitle(PrintTitle(empCode, profileName))
  {
    var effects := SavePdf(empCode, profileName);
    if empCode != "" {
      assert effects[2] == SetCustomTitle(PrintTitle(empCode, profileName));
    }
  }
}
